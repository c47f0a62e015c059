/**
 The wire form of a screen: every row is a list of runs of like cells, and cell styles are interned
 in a table that runs refer to by number.

 `EncodeSnapshot` and `DecodeSnapshot` follow the loops of the program. The functions they are
 proved against, `Encode` and `Decode`, are what the lemmas of `WireCodecProofs` talk about.
 */
module WireCodec {
  import opened Basics
  import opened TerminalModel

  datatype CellStyle = CellStyle(
    foreground: TerminalColor,
    background: TerminalColor,
    attributes: TerminalAttributes,
    hyperlink: Option<u32>)

  const DEFAULT_STYLE := CellStyle(Default, Default, PLAIN, None)

  datatype WireStyle = WireStyle(
    foreground: TerminalColor,
    background: TerminalColor,
    attributes: bv8,
    hyperlink: Option<u32>)

  /** A run carries exactly one of: a number of empty cells, one character per cell, one string per cell. */
  datatype WireRun = WireRun(style: u32, flags: bv8, empty: u16, text: string, graphemes: seq<string>)
  datatype WireRow = WireRow(runs: seq<WireRun>, wrapped: bool)
  datatype WireSnapshot = WireSnapshot(state: TerminalState, styles: seq<WireStyle>, rows: seq<WireRow>)

  datatype EncodeError = InvalidSnapshot | TooManyStyles | RowTooWide
  datatype DecodeError =
    | BadDimensions | UnknownStyle | BadFlags | BadContents | TooWide | EmptyGrapheme | WrongWidth | InvalidScreen

  // ---------------------------------------------------------------------------------------------
  // Flags and styles
  // ---------------------------------------------------------------------------------------------

  function Bit(b: bool): bv8 {
    if b then 1 else 0
  }

  function AttributeFlags(a: TerminalAttributes): bv8 {
    Bit(a.bold) | (Bit(a.dim) << 1) | (Bit(a.italic) << 2) | (Bit(a.underline) << 3)
    | (Bit(a.inverse) << 4) | (Bit(a.blink) << 5) | (Bit(a.hidden) << 6) | (Bit(a.strikethrough) << 7)
  }

  function Attributes(flags: bv8): TerminalAttributes {
    TerminalAttributes(
      flags & 1 != 0, flags & 2 != 0, flags & 4 != 0, flags & 8 != 0,
      flags & 16 != 0, flags & 32 != 0, flags & 64 != 0, flags & 128 != 0)
  }

  function CellFlags(cell: TerminalCell): bv8 {
    Bit(cell.wide) | (Bit(cell.wideContinuation) << 1)
  }

  function StyleOf(cell: TerminalCell): CellStyle {
    CellStyle(cell.foreground, cell.background, cell.attributes, cell.hyperlink)
  }

  function ToWireStyle(style: CellStyle): WireStyle {
    WireStyle(style.foreground, style.background, AttributeFlags(style.attributes), style.hyperlink)
  }

  function FromWireStyle(style: WireStyle): CellStyle {
    CellStyle(style.foreground, style.background, Attributes(style.attributes), style.hyperlink)
  }

  function ToWireStyles(styles: seq<CellStyle>): seq<WireStyle> {
    seq(|styles|, i requires 0 <= i < |styles| => ToWireStyle(styles[i]))
  }

  function FromWireStyles(styles: seq<WireStyle>): seq<CellStyle> {
    seq(|styles|, i requires 0 <= i < |styles| => FromWireStyle(styles[i]))
  }

  function CellOf(text: TerminalText, style: CellStyle, flags: bv8): TerminalCell {
    TerminalCell(
      text, style.foreground, style.background, style.attributes,
      flags & 1 != 0, flags & 2 != 0, style.hyperlink)
  }

  function TextOf(text: TerminalText): string {
    match text
    case Empty => ""
    case Scalar(c) => [c]
    case Grapheme(t) => t
  }

  // ---------------------------------------------------------------------------------------------
  // Encoding
  // ---------------------------------------------------------------------------------------------

  datatype Variant = Empties | Scalars | Graphemes

  /**
   How cells are grouped into runs. The program groups `ByVariant`. A grapheme run can carry
   one-character strings as well, so `ByEmptiness` is another grouping the decoder accepts; it is
   what the program's run count is measured against.
   */
  datatype Grouping = ByVariant | ByEmptiness

  function VariantOf(g: Grouping, text: TerminalText): Variant {
    match text
    case Empty => Empties
    case Scalar(_) => if g.ByVariant? then Scalars else Graphemes
    case Grapheme(_) => Graphemes
  }

  datatype RunKey = RunKey(variant: Variant, style: CellStyle, flags: bv8)

  function KeyOf(g: Grouping, cell: TerminalCell): RunKey {
    RunKey(VariantOf(g, cell.contents), StyleOf(cell), CellFlags(cell))
  }

  /** How many leading cells share `key`. */
  function Span(g: Grouping, cells: seq<TerminalCell>, key: RunKey): (n: nat)
    ensures n <= |cells|
    ensures forall i | 0 <= i < n :: KeyOf(g, cells[i]) == key
    ensures n < |cells| ==> KeyOf(g, cells[n]) != key
  {
    if |cells| > 0 && KeyOf(g, cells[0]) == key then 1 + Span(g, cells[1..], key) else 0
  }

  function IndexOf(styles: seq<CellStyle>, style: CellStyle): (i: nat)
    ensures i <= |styles|
    ensures i < |styles| <==> style in styles
    ensures i < |styles| ==> styles[i] == style
  {
    if |styles| == 0 then 0 else if styles[0] == style then 0 else 1 + IndexOf(styles[1..], style)
  }

  function Intern(styles: seq<CellStyle>, style: CellStyle): seq<CellStyle> {
    if style in styles then styles else styles + [style]
  }

  function Characters(cells: seq<TerminalCell>): string
    requires forall c | c in cells :: c.contents.Scalar?
  {
    seq(|cells|, i requires 0 <= i < |cells| => cells[i].contents.character)
  }

  function Strings(cells: seq<TerminalCell>): seq<string> {
    seq(|cells|, i requires 0 <= i < |cells| => TextOf(cells[i].contents))
  }

  predicate IsGroup(g: Grouping, group: seq<TerminalCell>) {
    0 < |group| < 0x1_0000 && forall i | 0 <= i < |group| :: KeyOf(g, group[i]) == KeyOf(g, group[0])
  }

  predicate AreGroups(g: Grouping, groups: seq<seq<TerminalCell>>) {
    forall i | 0 <= i < |groups| :: IsGroup(g, groups[i])
  }

  /** The run for a group of cells that share a key. */
  function RunFor(g: Grouping, group: seq<TerminalCell>, style: u32): WireRun
    requires IsGroup(g, group)
  {
    var flags := CellFlags(group[0]);
    match VariantOf(g, group[0].contents)
    case Empties => WireRun(style, flags, |group|, "", [])
    case Scalars =>
      assert forall i | 0 <= i < |group| :: KeyOf(g, group[i]).variant == Scalars;
      WireRun(style, flags, 0, Characters(group), [])
    case Graphemes => WireRun(style, flags, 0, "", Strings(group))
  }

  /** A row cut into its longest stretches of like cells. */
  function Partition(g: Grouping, cells: seq<TerminalCell>): (groups: seq<seq<TerminalCell>>)
    requires |cells| < 0x1_0000
    ensures AreGroups(g, groups) && |groups| <= |cells|
    decreases |cells|
  {
    if |cells| == 0 then []
    else
      var n := Span(g, cells, KeyOf(g, cells[0]));
      [cells[..n]] + Partition(g, cells[n..])
  }

  /** The runs of the groups and the style table after them. */
  function RunsFor(g: Grouping, groups: seq<seq<TerminalCell>>, styles: seq<CellStyle>)
      : (r: (seq<WireRun>, seq<CellStyle>))
    requires AreGroups(g, groups) && |styles| + |groups| <= TWO_TO_THE_32
    ensures styles <= r.1 && |r.1| <= |styles| + |groups| && |r.0| == |groups|
    decreases |groups|
  {
    if |groups| == 0 then ([], styles)
    else
      var style := StyleOf(groups[0][0]);
      var table := Intern(styles, style);
      var rest := RunsFor(g, groups[1..], table);
      ([RunFor(g, groups[0], IndexOf(table, style))] + rest.0, rest.1)
  }

  function EncodeRow(g: Grouping, cells: seq<TerminalCell>, styles: seq<CellStyle>): (r: (seq<WireRun>, seq<CellStyle>))
    requires |cells| < 0x1_0000 && |styles| + |cells| <= TWO_TO_THE_32
    ensures styles <= r.1 && |r.1| <= |styles| + |cells|
  {
    RunsFor(g, Partition(g, cells), styles)
  }

  /** The grid cut into rows. */
  function Chunks(cells: seq<TerminalCell>, rows: nat, cols: nat): (r: seq<seq<TerminalCell>>)
    requires |cells| == rows * cols
    ensures |r| == rows && forall row | row in r :: |row| == cols
    decreases rows
  {
    if rows == 0 then []
    else
      RowProduct(rows, cols);
      [cells[..cols]] + Chunks(cells[cols..], rows - 1, cols)
  }

  lemma RowProduct(rows: nat, cols: nat)
    requires rows > 0
    ensures rows * cols == cols + (rows - 1) * cols && (rows - 1) * cols >= 0
  {
  }

  function Flatten(rows: seq<seq<TerminalCell>>): seq<TerminalCell> {
    if |rows| == 0 then [] else rows[0] + Flatten(rows[1..])
  }

  function EncodeRows(g: Grouping, rows: seq<seq<TerminalCell>>, wrapped: seq<bool>, styles: seq<CellStyle>)
    : (r: (seq<WireRow>, seq<CellStyle>))
    requires |rows| == |wrapped| && (forall row | row in rows :: |row| < 0x1_0000)
    requires |styles| + |Flatten(rows)| <= TWO_TO_THE_32
    ensures styles <= r.1 && |r.1| <= |styles| + |Flatten(rows)| && |r.0| == |rows|
    decreases |rows|
  {
    if |rows| == 0 then ([], styles)
    else
      var row := EncodeRow(g, rows[0], styles);
      var rest := EncodeRows(g, rows[1..], wrapped[1..], row.1);
      ([WireRow(row.0, wrapped[0])] + rest.0, rest.1)
  }

  function Rows(s: TerminalSnapshot): (r: seq<seq<TerminalCell>>)
    requires Valid(s)
    ensures |r| == s.state.size.rows && forall row | row in r :: |row| == s.state.size.cols
    ensures Flatten(r) == s.cells && |s.cells| + 1 < TWO_TO_THE_32
  {
    CellCountFits(s.state.size);
    FlattenChunks(s.cells, s.state.size.rows, s.state.size.cols);
    Chunks(s.cells, s.state.size.rows, s.state.size.cols)
  }

  lemma {:induction false} FlattenChunks(cells: seq<TerminalCell>, rows: nat, cols: nat)
    requires |cells| == rows * cols
    ensures Flatten(Chunks(cells, rows, cols)) == cells
    decreases rows
  {
    if rows > 0 {
      RowProduct(rows, cols);
      FlattenChunks(cells[cols..], rows - 1, cols);
      assert Chunks(cells, rows, cols)[1..] == Chunks(cells[cols..], rows - 1, cols);
    }
  }

  lemma {:induction false} ChunkAt(cells: seq<TerminalCell>, rows: nat, cols: nat, i: nat)
    requires |cells| == rows * cols && i < rows
    ensures 0 <= i * cols <= i * cols + cols <= |cells|
    ensures Chunks(cells, rows, cols)[i] == cells[i * cols..i * cols + cols]
    decreases rows
  {
    RowProduct(rows, cols);
    if i > 0 {
      ChunkAt(cells[cols..], rows - 1, cols, i - 1);
      RowProduct(i, cols);
      assert cells[cols..][(i - 1) * cols..(i - 1) * cols + cols] == cells[i * cols..i * cols + cols];
    }
  }

  function EncodeWith(g: Grouping, s: TerminalSnapshot): WireSnapshot
    requires Valid(s)
  {
    var rows := EncodeRows(g, Rows(s), s.wrappedRows, [DEFAULT_STYLE]);
    WireSnapshot(s.state, ToWireStyles(rows.1), rows.0)
  }

  /** What the program sends for a valid screen. */
  function Encode(s: TerminalSnapshot): WireSnapshot
    requires Valid(s)
  {
    EncodeWith(ByVariant, s)
  }

  // ---------------------------------------------------------------------------------------------
  // Decoding
  // ---------------------------------------------------------------------------------------------

  function RunLength(run: WireRun): nat {
    if run.empty > 0 then run.empty else if |run.text| > 0 then |run.text| else |run.graphemes|
  }

  function Variants(run: WireRun): nat {
    (if run.empty > 0 then 1 else 0) + (if |run.text| > 0 then 1 else 0) + (if |run.graphemes| > 0 then 1 else 0)
  }

  function RunText(run: WireRun, i: nat): TerminalText
    requires i < RunLength(run)
  {
    if run.empty > 0 then Empty
    else if |run.text| > 0 then Scalar(run.text[i])
    else FromText(run.graphemes[i])
  }

  function RunCells(style: CellStyle, run: WireRun): seq<TerminalCell> {
    seq(RunLength(run), i requires 0 <= i < RunLength(run) => CellOf(RunText(run, i), style, run.flags))
  }

  /** The cells of one run, when `used` cells of its row are already taken. */
  function DecodeRun(styles: seq<CellStyle>, cols: u16, used: nat, run: WireRun)
      : Result<seq<TerminalCell>, DecodeError>
  {
    if run.style >= |styles| then Err(UnknownStyle)
    else if run.flags & !3 != 0 then Err(BadFlags)
    else if Variants(run) != 1 then Err(BadContents)
    else if used + RunLength(run) > cols then Err(TooWide)
    else if run.empty == 0 && |run.text| == 0 && "" in run.graphemes then Err(EmptyGrapheme)
    else Ok(RunCells(styles[run.style], run))
  }

  function Prepend(done: seq<TerminalCell>, rest: Result<seq<TerminalCell>, DecodeError>)
      : Result<seq<TerminalCell>, DecodeError>
  {
    match rest
    case Err(e) => Err(e)
    case Ok(cells) => Ok(done + cells)
  }

  function DecodeRow(styles: seq<CellStyle>, cols: u16, used: nat, runs: seq<WireRun>)
      : Result<seq<TerminalCell>, DecodeError>
    decreases |runs|
  {
    if |runs| == 0 then if used == cols then Ok([]) else Err(WrongWidth)
    else
      match DecodeRun(styles, cols, used, runs[0])
      case Err(e) => Err(e)
      case Ok(cells) => Prepend(cells, DecodeRow(styles, cols, used + |cells|, runs[1..]))
  }

  function DecodeRows(styles: seq<CellStyle>, cols: u16, rows: seq<WireRow>): Result<seq<TerminalCell>, DecodeError>
    decreases |rows|
  {
    if |rows| == 0 then Ok([])
    else
      match DecodeRow(styles, cols, 0, rows[0].runs)
      case Err(e) => Err(e)
      case Ok(cells) => Prepend(cells, DecodeRows(styles, cols, rows[1..]))
  }

  function WrappedFlags(rows: seq<WireRow>): seq<bool> {
    seq(|rows|, i requires 0 <= i < |rows| => rows[i].wrapped)
  }

  function Decode(w: WireSnapshot): Result<TerminalSnapshot, DecodeError> {
    if |w.rows| != w.state.size.rows || |w.styles| == 0 then Err(BadDimensions)
    else
      match DecodeRows(FromWireStyles(w.styles), w.state.size.cols, w.rows)
      case Err(e) => Err(e)
      case Ok(cells) =>
        var s := TerminalSnapshot(w.state, cells, WrappedFlags(w.rows));
        if Valid(s) then Ok(s) else Err(InvalidScreen)
  }

  // ---------------------------------------------------------------------------------------------
  // The encoder as a loop
  // ---------------------------------------------------------------------------------------------

  /** The style map holds every style of the table with its position. */
  ghost predicate Agrees(ids: map<CellStyle, u32>, table: seq<CellStyle>) {
    && (forall style :: style in ids <==> style in table)
    && (forall style | style in ids :: ids[style] == IndexOf(table, style))
  }

  lemma {:induction false} IndexOfAppended(table: seq<CellStyle>, extra: CellStyle, style: CellStyle)
    requires extra !in table
    ensures style in table ==> IndexOf(table + [extra], style) == IndexOf(table, style)
    ensures IndexOf(table + [extra], extra) == |table|
  {
    if |table| > 0 {
      assert (table + [extra])[1..] == table[1..] + [extra];
      IndexOfAppended(table[1..], extra, style);
    }
  }

  lemma AgreesAfterInsert(ids: map<CellStyle, u32>, table: seq<CellStyle>, style: CellStyle, id: u32)
    requires Agrees(ids, table) && style !in table && id == |table|
    ensures Agrees(ids[style := id], table + [style])
  {
    forall other
      ensures other in ids[style := id] <==> other in table + [style]
      ensures other in ids[style := id] ==> ids[style := id][other] == IndexOf(table + [style], other)
    {
      IndexOfAppended(table, style, other);
    }
  }

  lemma SpanIs(g: Grouping, cells: seq<TerminalCell>, key: RunKey, n: nat)
    requires n <= |cells|
    requires forall i | 0 <= i < n :: KeyOf(g, cells[i]) == key
    requires n < |cells| ==> KeyOf(g, cells[n]) != key
    ensures Span(g, cells, key) == n
  {
    assert n <= Span(g, cells, key);
  }

  /** The number of a style, entering it into the table when it is new. */
  method InternStyle(style: CellStyle, ids: map<CellStyle, u32>, styles: seq<WireStyle>, ghost table: seq<CellStyle>)
    returns (id: Option<u32>, ids': map<CellStyle, u32>, styles': seq<WireStyle>)
    requires Agrees(ids, table) && styles == ToWireStyles(table)
    ensures id.None? ==> |table| >= TWO_TO_THE_32
    ensures id.Some? ==>
              && id.value == IndexOf(Intern(table, style), style)
              && Agrees(ids', Intern(table, style))
              && styles' == ToWireStyles(Intern(table, style))
  {
    if style in ids {
      return Some(ids[style]), ids, styles;
    }
    if |styles| >= TWO_TO_THE_32 {
      return None, ids, styles;
    }
    AgreesAfterInsert(ids, table, style, |styles|);
    IndexOfAppended(table, style, style);
    id, ids', styles' := Some(|styles|), ids[style := |styles|], styles + [ToWireStyle(style)];
    assert styles' == ToWireStyles(table + [style]);
  }

  /** What a run started at `start` must look like once the scan has stopped at `column`. */
  ghost predicate RunCovers(cells: seq<TerminalCell>, start: nat, column: nat, run: WireRun) {
    && start < column <= |cells|
    && (forall i | start <= i < column :: KeyOf(ByVariant, cells[i]) == KeyOf(ByVariant, cells[start]))
    && (column < |cells| ==> KeyOf(ByVariant, cells[column]) != KeyOf(ByVariant, cells[start]))
    && run.flags == CellFlags(cells[start])
    && match cells[start].contents {
         case Empty => run.empty == column - start && run.text == "" && run.graphemes == []
         case Scalar(_) =>
           && run.empty == 0 && run.graphemes == [] && |run.text| == column - start
           && (forall i | start <= i < column :: cells[i].contents == Scalar(run.text[i - start]))
         case Grapheme(_) =>
           && run.empty == 0 && run.text == "" && |run.graphemes| == column - start
           && (forall i | start <= i < column :: TextOf(cells[i].contents) == run.graphemes[i - start])
       }
  }

  /** Scans one run: the longest stretch of cells with the variant, style and flags of the cell at `start`. */
  method ScanRun(cells: seq<TerminalCell>, start: nat, id: u32) returns (run: Result<WireRun, EncodeError>, column: nat)
    requires start < |cells| < 0x1_0000
    ensures run.Ok? && run.value.style == id && RunCovers(cells, start, column, run.value)
  {
    column := start;
    var cell := cells[start];
    var style := StyleOf(cell);
    var flags := CellFlags(cell);
    var text, graphemes := "", [];
    match cell.contents {
      case Empty =>
        while column < |cells| && cells[column].contents.Empty?
              && StyleOf(cells[column]) == style && CellFlags(cells[column]) == flags
          invariant start <= column <= |cells|
          invariant forall i | start <= i < column :: KeyOf(ByVariant, cells[i]) == KeyOf(ByVariant, cell)
        {
          column := column + 1;
        }
        if column - start >= 0x1_0000 {
          return Err(RowTooWide), column;
        }
        run := Ok(WireRun(id, flags, column - start, "", []));
      case Scalar(_) =>
        while column < |cells| && cells[column].contents.Scalar?
              && StyleOf(cells[column]) == style && CellFlags(cells[column]) == flags
          invariant start <= column <= |cells| && |text| == column - start
          invariant forall i | start <= i < column :: KeyOf(ByVariant, cells[i]) == KeyOf(ByVariant, cell)
          invariant forall i | start <= i < column :: cells[i].contents == Scalar(text[i - start])
        {
          text := text + [cells[column].contents.character];
          column := column + 1;
        }
        run := Ok(WireRun(id, flags, 0, text, []));
      case Grapheme(_) =>
        while column < |cells| && cells[column].contents.Grapheme?
              && StyleOf(cells[column]) == style && CellFlags(cells[column]) == flags
          invariant start <= column <= |cells| && |graphemes| == column - start
          invariant forall i | start <= i < column :: KeyOf(ByVariant, cells[i]) == KeyOf(ByVariant, cell)
          invariant forall i | start <= i < column :: TextOf(cells[i].contents) == graphemes[i - start]
        {
          graphemes := graphemes + [TextOf(cells[column].contents)];
          column := column + 1;
        }
        run := Ok(WireRun(id, flags, 0, "", graphemes));
    }
  }

  /** The step the row loop takes is the step of `EncodeRow`. */
  lemma {:induction false} EncodeRowStep(
    cells: seq<TerminalCell>, start: nat, column: nat, table: seq<CellStyle>, run: WireRun)
    requires |cells| < 0x1_0000 && start < |cells| && |table| + |cells| - start <= TWO_TO_THE_32
    requires RunCovers(cells, start, column, run)
    requires run.style == IndexOf(Intern(table, StyleOf(cells[start])), StyleOf(cells[start]))
    ensures var rest := EncodeRow(ByVariant, cells[column..], Intern(table, StyleOf(cells[start])));
            EncodeRow(ByVariant, cells[start..], table) == ([run] + rest.0, rest.1)
  {
    var first := cells[start..][..column - start];
    CoveringRun(cells, start, column, run);
    PartitionStep(cells, start, column, run);
    assert first[0] == cells[start];
    RunsForFirst(ByVariant, first, Partition(ByVariant, cells[column..]), table);
  }

  lemma PartitionStep(cells: seq<TerminalCell>, start: nat, column: nat, run: WireRun)
    requires |cells| < 0x1_0000 && RunCovers(cells, start, column, run)
    ensures Partition(ByVariant, cells[start..]) ==
            [cells[start..][..column - start]] + Partition(ByVariant, cells[column..])
  {
    var here, n := cells[start..], column - start;
    SpanIs(ByVariant, here, KeyOf(ByVariant, here[0]), n);
    assert here[n..] == cells[column..];
  }

  lemma RunsForFirst(g: Grouping, first: seq<TerminalCell>, rest: seq<seq<TerminalCell>>, styles: seq<CellStyle>)
    requires IsGroup(g, first) && AreGroups(g, rest) && |styles| + |rest| + 1 <= TWO_TO_THE_32
    ensures AreGroups(g, [first] + rest)
    ensures var table := Intern(styles, StyleOf(first[0]));
            var runs := RunsFor(g, rest, table);
            RunsFor(g, [first] + rest, styles) ==
            ([RunFor(g, first, IndexOf(table, StyleOf(first[0])))] + runs.0, runs.1)
  {
    assert ([first] + rest)[1..] == rest;
  }

  lemma CoveringRun(cells: seq<TerminalCell>, start: nat, column: nat, run: WireRun)
    requires |cells| < 0x1_0000 && RunCovers(cells, start, column, run)
    ensures IsGroup(ByVariant, cells[start..][..column - start])
    ensures run == RunFor(ByVariant, cells[start..][..column - start], run.style)
  {
    var group := cells[start..][..column - start];
    assert forall i | 0 <= i < |group| :: group[i] == cells[start + i];
    match cells[start].contents {
      case Empty =>
      case Scalar(_) =>
        assert forall i | 0 <= i < |group| :: KeyOf(ByVariant, group[i]).variant == Scalars;
        assert run.text == Characters(group);
      case Grapheme(_) =>
        assert run.graphemes == Strings(group);
    }
  }

  /** `runs` are the runs of the first `column` cells of a row, and `now` is the style table after them. */
  ghost predicate RowUpTo(
    cells: seq<TerminalCell>, table: seq<CellStyle>, column: nat, runs: seq<WireRun>, now: seq<CellStyle>)
  {
    && column <= |cells| < 0x1_0000 && |now| <= |table| + column
    && |table| + |cells| < TWO_TO_THE_32
    && (var whole := EncodeRow(ByVariant, cells, table);
        var rest := EncodeRow(ByVariant, cells[column..], now);
        runs + rest.0 == whole.0 && rest.1 == whole.1)
  }

  lemma RowUpToStart(cells: seq<TerminalCell>, table: seq<CellStyle>)
    requires |cells| < 0x1_0000 && |table| + |cells| < TWO_TO_THE_32
    ensures RowUpTo(cells, table, 0, [], table)
  {
    assert cells[0..] == cells;
  }

  lemma RowUpToStep(
    cells: seq<TerminalCell>, table: seq<CellStyle>, start: nat, runs: seq<WireRun>, now: seq<CellStyle>, column: nat,
    run: WireRun)
    requires RowUpTo(cells, table, start, runs, now)
    requires RunCovers(cells, start, column, run)
    requires run.style == IndexOf(Intern(now, StyleOf(cells[start])), StyleOf(cells[start]))
    ensures RowUpTo(cells, table, column, runs + [run], Intern(now, StyleOf(cells[start])))
  {
    EncodeRowStep(cells, start, column, now, run);
    var rest := EncodeRow(ByVariant, cells[column..], Intern(now, StyleOf(cells[start]))).0;
    Regroup(runs, run, rest);
  }

  lemma RowUpToEnd(cells: seq<TerminalCell>, table: seq<CellStyle>, runs: seq<WireRun>, now: seq<CellStyle>)
    requires RowUpTo(cells, table, |cells|, runs, now)
    ensures EncodeRow(ByVariant, cells, table) == (runs, now)
  {
    assert cells[|cells|..] == [] && runs + [] == runs;
  }

  /** One row of the encoder: scan to the end of each run, interning styles on the way. */
  method EncodeRowLoop(
    cells: seq<TerminalCell>, ids: map<CellStyle, u32>, styles: seq<WireStyle>, ghost table: seq<CellStyle>)
    returns (r: Result<seq<WireRun>, EncodeError>, ids': map<CellStyle, u32>, styles': seq<WireStyle>)
    requires |cells| < 0x1_0000 && |table| + |cells| < TWO_TO_THE_32
    requires Agrees(ids, table) && styles == ToWireStyles(table)
    ensures r == Ok(EncodeRow(ByVariant, cells, table).0)
    ensures Agrees(ids', EncodeRow(ByVariant, cells, table).1)
    ensures styles' == ToWireStyles(EncodeRow(ByVariant, cells, table).1)
  {
    ids', styles' := ids, styles;
    ghost var now := table;
    var runs: seq<WireRun> := [];
    var column := 0;
    RowUpToStart(cells, table);
    while column < |cells|
      invariant Agrees(ids', now) && styles' == ToWireStyles(now)
      invariant RowUpTo(cells, table, column, runs, now)
    {
      var start := column;
      var id;
      id, ids', styles' := InternStyle(StyleOf(cells[start]), ids', styles', now);
      if id.None? {
        return Err(TooManyStyles), ids', styles';
      }
      var run;
      run, column := ScanRun(cells, start, id.value);
      match run {
        case Err(error) =>
          return Err(error), ids', styles';
        case Ok(next) =>
          RowUpToStep(cells, table, start, runs, now, column, next);
          runs := runs + [next];
      }
      now := Intern(now, StyleOf(cells[start]));
    }
    RowUpToEnd(cells, table, runs, now);
    r := Ok(runs);
  }

  method RowCells(s: TerminalSnapshot, row: nat) returns (cells: seq<TerminalCell>)
    requires Valid(s) && row < s.state.size.rows
    ensures cells == Rows(s)[row]
  {
    var cols := s.state.size.cols;
    ChunkAt(s.cells, s.state.size.rows, cols, row);
    var start := row * cols;
    cells := s.cells[start..start + cols];
  }

  /** `rows` are the first `row` rows of the encoding of a grid, and `table` is the style table after them. */
  ghost predicate EncodedUpTo(
    grid: seq<seq<TerminalCell>>, flags: seq<bool>, row: nat, rows: seq<WireRow>, table: seq<CellStyle>)
  {
    && row <= |grid| == |flags| && (forall cells | cells in grid :: |cells| < 0x1_0000)
    && 1 + |Flatten(grid)| <= TWO_TO_THE_32 && |table| + |Flatten(grid[row..])| < TWO_TO_THE_32
    && rows + EncodeRows(ByVariant, grid[row..], flags[row..], table).0 ==
       EncodeRows(ByVariant, grid, flags, [DEFAULT_STYLE]).0
    && EncodeRows(ByVariant, grid[row..], flags[row..], table).1 ==
       EncodeRows(ByVariant, grid, flags, [DEFAULT_STYLE]).1
  }

  lemma EncodedUpToStart(grid: seq<seq<TerminalCell>>, flags: seq<bool>)
    requires |grid| == |flags| && (forall cells | cells in grid :: |cells| < 0x1_0000)
    requires 1 + |Flatten(grid)| < TWO_TO_THE_32
    ensures EncodedUpTo(grid, flags, 0, [], [DEFAULT_STYLE])
  {
    assert grid[0..] == grid && flags[0..] == flags;
  }

  lemma EncodeRowsHead(
    head: seq<TerminalCell>, tail: seq<seq<TerminalCell>>, flag: bool, flags: seq<bool>, table: seq<CellStyle>)
    requires |tail| == |flags| && |head| < 0x1_0000 && (forall row | row in tail :: |row| < 0x1_0000)
    requires |table| + |head| + |Flatten(tail)| <= TWO_TO_THE_32
    ensures |Flatten([head] + tail)| == |head| + |Flatten(tail)|
    ensures EncodeRows(ByVariant, [head] + tail, [flag] + flags, table).0 ==
            [WireRow(EncodeRow(ByVariant, head, table).0, flag)]
            + EncodeRows(ByVariant, tail, flags, EncodeRow(ByVariant, head, table).1).0
    ensures EncodeRows(ByVariant, [head] + tail, [flag] + flags, table).1 ==
            EncodeRows(ByVariant, tail, flags, EncodeRow(ByVariant, head, table).1).1
  {
    assert ([head] + tail)[1..] == tail && ([flag] + flags)[1..] == flags;
  }

  lemma FlattenStep(grid: seq<seq<TerminalCell>>, row: nat)
    requires row < |grid|
    ensures grid[row..] == [grid[row]] + grid[row + 1..]
    ensures |Flatten(grid[row..])| == |grid[row]| + |Flatten(grid[row + 1..])|
  {
    assert grid[row..][1..] == grid[row + 1..];
  }

  lemma EncodedUpToStep(
    grid: seq<seq<TerminalCell>>, flags: seq<bool>, row: nat, rows: seq<WireRow>, table: seq<CellStyle>)
    requires row < |grid| && EncodedUpTo(grid, flags, row, rows, table)
    ensures |table| + |grid[row]| < TWO_TO_THE_32
    ensures EncodedUpTo(
              grid, flags, row + 1,
              rows + [WireRow(EncodeRow(ByVariant, grid[row], table).0, flags[row])],
              EncodeRow(ByVariant, grid[row], table).1)
  {
    var head, tail := grid[row], grid[row + 1..];
    assert flags[row..] == [flags[row]] + flags[row + 1..];
    FlattenStep(grid, row);
    EncodeRowsHead(head, tail, flags[row], flags[row + 1..], table);
    var here := EncodeRow(ByVariant, head, table);
    Regroup(rows, WireRow(here.0, flags[row]), EncodeRows(ByVariant, tail, flags[row + 1..], here.1).0);
  }

  lemma EncodedUpToEnd(grid: seq<seq<TerminalCell>>, flags: seq<bool>, rows: seq<WireRow>, table: seq<CellStyle>)
    requires EncodedUpTo(grid, flags, |grid|, rows, table)
    ensures EncodeRows(ByVariant, grid, flags, [DEFAULT_STYLE]) == (rows, table)
  {
    assert rows + [] == rows;
  }

  /** The encoder. It fails only on an invalid screen: neither the style number nor a run length can overflow. */
  method EncodeSnapshot(s: TerminalSnapshot) returns (r: Result<WireSnapshot, EncodeError>)
    ensures r == if Valid(s) then Ok(Encode(s)) else Err(InvalidSnapshot)
  {
    if Validate(s).Err? {
      return Err(InvalidSnapshot);
    }
    var ids: map<CellStyle, u32> := map[DEFAULT_STYLE := 0];
    var styles := [ToWireStyle(DEFAULT_STYLE)];
    var rows: seq<WireRow> := [];
    ghost var table := [DEFAULT_STYLE];
    assert styles == ToWireStyles(table);
    EncodedUpToStart(Rows(s), s.wrappedRows);
    for row := 0 to s.state.size.rows
      invariant Agrees(ids, table) && styles == ToWireStyles(table)
      invariant EncodedUpTo(Rows(s), s.wrappedRows, row, rows, table)
    {
      EncodedUpToStep(Rows(s), s.wrappedRows, row, rows, table);
      var cells := RowCells(s, row);
      var runs;
      runs, ids, styles := EncodeRowLoop(cells, ids, styles, table);
      table := EncodeRow(ByVariant, cells, table).1;
      match runs {
        case Err(error) => return Err(error);
        case Ok(encoded) => rows := rows + [WireRow(encoded, s.wrappedRows[row])];
      }
    }
    EncodedUpToEnd(Rows(s), s.wrappedRows, rows, table);
    r := Ok(WireSnapshot(s.state, styles, rows));
  }

  // ---------------------------------------------------------------------------------------------
  // The decoder as a loop
  // ---------------------------------------------------------------------------------------------

  /** One row of the decoder. */
  method DecodeRowLoop(styles: seq<CellStyle>, cols: u16, runs: seq<WireRun>)
    returns (r: Result<seq<TerminalCell>, DecodeError>)
    ensures r == DecodeRow(styles, cols, 0, runs)
  {
    var cells: seq<TerminalCell> := [];
    assert runs[0..] == runs;
    PrependNothing(DecodeRow(styles, cols, 0, runs));
    for k := 0 to |runs|
      invariant DecodeRow(styles, cols, 0, runs) == Prepend(cells, DecodeRow(styles, cols, |cells|, runs[k..]))
    {
      var run := runs[k];
      assert runs[k..][0] == run && runs[k..][1..] == runs[k + 1..];
      var decoded := DecodeRun(styles, cols, |cells|, run);
      if decoded.Err? {
        return Err(decoded.error);
      }
      PrependTwice(cells, decoded.value, DecodeRow(styles, cols, |cells| + |decoded.value|, runs[k + 1..]));
      cells := cells + decoded.value;
    }
    assert runs[|runs|..] == [] && cells + [] == cells;
    r := if |cells| != cols then Err(WrongWidth) else Ok(cells);
  }

  method DecodeSnapshot(w: WireSnapshot) returns (r: Result<TerminalSnapshot, DecodeError>)
    ensures r == Decode(w)
  {
    if |w.rows| != w.state.size.rows || |w.styles| == 0 {
      return Err(BadDimensions);
    }
    var styles := FromWireStyles(w.styles);
    var cols := w.state.size.cols;
    var cells: seq<TerminalCell> := [];
    var wrapped: seq<bool> := [];
    assert w.rows[0..] == w.rows;
    PrependNothing(DecodeRows(styles, cols, w.rows));
    for i := 0 to |w.rows|
      invariant |wrapped| == i && forall j | 0 <= j < i :: wrapped[j] == w.rows[j].wrapped
      invariant DecodeRows(styles, cols, w.rows) == Prepend(cells, DecodeRows(styles, cols, w.rows[i..]))
    {
      assert w.rows[i..][0] == w.rows[i] && w.rows[i..][1..] == w.rows[i + 1..];
      var row := DecodeRowLoop(styles, cols, w.rows[i].runs);
      if row.Err? {
        return Err(row.error);
      }
      PrependTwice(cells, row.value, DecodeRows(styles, cols, w.rows[i + 1..]));
      cells := cells + row.value;
      wrapped := wrapped + [w.rows[i].wrapped];
    }
    assert w.rows[|w.rows|..] == [] && cells + [] == cells;
    assert wrapped == WrappedFlags(w.rows);
    var s := TerminalSnapshot(w.state, cells, wrapped);
    r := if Validate(s).Err? then Err(InvalidScreen) else Ok(s);
  }

  lemma PrependNothing(r: Result<seq<TerminalCell>, DecodeError>)
    ensures Prepend([], r) == r
  {
    if r.Ok? {
      assert [] + r.value == r.value;
    }
  }

  lemma PrependTwice(a: seq<TerminalCell>, b: seq<TerminalCell>, r: Result<seq<TerminalCell>, DecodeError>)
    ensures Prepend(a, Prepend(b, r)) == Prepend(a + b, r)
  {
    if r.Ok? {
      assert a + (b + r.value) == (a + b) + r.value;
    }
  }
}
