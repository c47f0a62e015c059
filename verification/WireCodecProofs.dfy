/**
 What the wire form promises: screens survive the trip, decoding never yields an invalid screen, and
 the encoder's runs are as long as its grouping allows. How many runs that leaves is compared with
 every other wire form of the same screen; the encoder is beaten exactly when a one-character cell
 stands beside a longer one of the same style, because a grapheme run may carry both.
 */
module WireCodecProofs {
  import opened Basics
  import opened TerminalModel
  import opened WireCodec

  // ---------------------------------------------------------------------------------------------
  // Flags and styles
  // ---------------------------------------------------------------------------------------------

  /** All 256 attribute bytes and all 256 attribute sets correspond. */
  lemma AttributesRoundTrip(a: TerminalAttributes, flags: bv8)
    ensures Attributes(AttributeFlags(a)) == a
    ensures AttributeFlags(Attributes(flags)) == flags
    ensures var bits := AttributeFlags(a);
            && (bits & 0x01 != 0 <==> a.bold) && (bits & 0x02 != 0 <==> a.dim)
            && (bits & 0x04 != 0 <==> a.italic) && (bits & 0x08 != 0 <==> a.underline)
            && (bits & 0x10 != 0 <==> a.inverse) && (bits & 0x20 != 0 <==> a.blink)
            && (bits & 0x40 != 0 <==> a.hidden) && (bits & 0x80 != 0 <==> a.strikethrough)
  {
    AttributeBits(a);
    FlagBits(flags);
  }

  lemma AttributeBits(a: TerminalAttributes)
    ensures Attributes(AttributeFlags(a)) == a
  {
  }

  lemma FlagBits(flags: bv8)
    ensures AttributeFlags(Attributes(flags)) == flags
  {
  }

  lemma CellRoundTrip(cell: TerminalCell)
    ensures CellOf(cell.contents, StyleOf(cell), CellFlags(cell)) == cell
    ensures CellFlags(cell) & !3 == 0
  {
  }

  lemma StylesRoundTrip(table: seq<CellStyle>)
    ensures FromWireStyles(ToWireStyles(table)) == table
  {
    forall i | 0 <= i < |table|
      ensures FromWireStyle(ToWireStyle(table[i])) == table[i]
    {
      AttributeBits(table[i].attributes);
    }
  }

  // ---------------------------------------------------------------------------------------------
  // Runs as collapsed keys
  // ---------------------------------------------------------------------------------------------

  /** A sequence with every stretch of equal neighbours collapsed to one element. */
  function Collapse<K(==)>(keys: seq<K>): (r: seq<K>)
    ensures |keys| > 0 ==> |r| > 0 && r[0] == keys[0]
    ensures |r| <= |keys|
  {
    if |keys| <= 1 then keys
    else if keys[0] == keys[1] then Collapse(keys[1..])
    else [keys[0]] + Collapse(keys[1..])
  }

  predicate NoEqualNeighbours<K(==)>(keys: seq<K>) {
    forall i | 0 <= i < |keys| - 1 :: keys[i] != keys[i + 1]
  }

  lemma {:induction false} CollapseHasNoEqualNeighbours<K>(keys: seq<K>)
    ensures NoEqualNeighbours(Collapse(keys))
  {
    if |keys| > 1 {
      CollapseHasNoEqualNeighbours(keys[1..]);
    }
  }

  lemma {:induction false} CollapseStretch<K>(keys: seq<K>, n: nat)
    requires 0 < n <= |keys|
    requires forall i | 0 <= i < n :: keys[i] == keys[0]
    requires n < |keys| ==> keys[n] != keys[0]
    ensures Collapse(keys) == [keys[0]] + Collapse(keys[n..])
    decreases n
  {
    if n > 1 {
      CollapseStretch(keys[1..], n - 1);
      assert keys[1..][n - 1..] == keys[n..];
    } else if |keys| == 1 {
      assert keys[n..] == [];
    }
  }

  function Keys(g: Grouping, cells: seq<TerminalCell>): seq<RunKey> {
    seq(|cells|, i requires 0 <= i < |cells| => KeyOf(g, cells[i]))
  }

  function HeadKeys(g: Grouping, groups: seq<seq<TerminalCell>>): seq<RunKey>
    requires AreGroups(g, groups)
  {
    seq(|groups|, i requires 0 <= i < |groups| => KeyOf(g, groups[i][0]))
  }

  // ---------------------------------------------------------------------------------------------
  // Round trip
  // ---------------------------------------------------------------------------------------------

  /** A text in the form `From<&str>` builds it. */
  predicate CanonicalText(text: TerminalText) {
    text == FromText(TextOf(text))
  }

  predicate CanonicalTexts(cells: seq<TerminalCell>) {
    forall i | 0 <= i < |cells| :: CanonicalText(cells[i].contents)
  }

  function Canonical(cell: TerminalCell): TerminalCell {
    cell.(contents := FromText(TextOf(cell.contents)))
  }

  function CanonicalCells(cells: seq<TerminalCell>): seq<TerminalCell> {
    seq(|cells|, i requires 0 <= i < |cells| => Canonical(cells[i]))
  }

  predicate HasEmptyGrapheme(cells: seq<TerminalCell>) {
    exists i | 0 <= i < |cells| :: cells[i].contents == Grapheme("")
  }

  /** What decoding a row of these cells must give. */
  function DecodedRow(cells: seq<TerminalCell>): Result<seq<TerminalCell>, DecodeError> {
    if HasEmptyGrapheme(cells) then Err(EmptyGrapheme) else Ok(CanonicalCells(cells))
  }

  lemma RunDecodes(g: Grouping, group: seq<TerminalCell>, id: u32, styles: seq<CellStyle>, cols: u16, used: nat)
    requires IsGroup(g, group) && used + |group| <= cols
    requires id < |styles| && styles[id] == StyleOf(group[0])
    ensures DecodeRun(styles, cols, used, RunFor(g, group, id)) == DecodedRow(group)
  {
    var run := RunFor(g, group, id);
    CellRoundTrip(group[0]);
    assert RunLength(run) == |group| && Variants(run) == 1;
    var decoded := RunCells(styles[id], run);
    if run.empty == 0 && |run.text| == 0 {
      assert "" in run.graphemes <==> HasEmptyGrapheme(group) by {
        if HasEmptyGrapheme(group) {
          var i :| 0 <= i < |group| && group[i].contents == Grapheme("");
          assert run.graphemes[i] == "";
        }
        if "" in run.graphemes {
          var i :| 0 <= i < |run.graphemes| && run.graphemes[i] == "";
          assert KeyOf(g, group[i]).variant == Graphemes;
          assert group[i].contents == Grapheme("");
        }
      }
    } else {
      forall i | 0 <= i < |group|
        ensures group[i].contents != Grapheme("")
      {
        assert KeyOf(g, group[i]).variant == KeyOf(g, group[0]).variant;
      }
    }
    if !HasEmptyGrapheme(group) {
      forall i | 0 <= i < |group|
        ensures decoded[i] == Canonical(group[i])
      {
        assert KeyOf(g, group[i]) == KeyOf(g, group[0]);
        CellRoundTrip(group[i]);
      }
      assert decoded == CanonicalCells(group);
    }
  }

  lemma DecodedRowSplits(a: seq<TerminalCell>, b: seq<TerminalCell>)
    ensures DecodedRow(a + b) ==
            if DecodedRow(a).Err? then DecodedRow(a) else Prepend(DecodedRow(a).value, DecodedRow(b))
  {
    if HasEmptyGrapheme(b) {
      var i :| 0 <= i < |b| && b[i].contents == Grapheme("");
      assert (a + b)[|a| + i] == b[i];
    }
    if HasEmptyGrapheme(a) {
      var i :| 0 <= i < |a| && a[i].contents == Grapheme("");
      assert (a + b)[i] == a[i];
    }
    assert CanonicalCells(a + b) == CanonicalCells(a) + CanonicalCells(b);
  }

  /** The parts a row is cut into make up the row. */
  lemma {:induction false} PartitionIsExact(g: Grouping, cells: seq<TerminalCell>)
    requires |cells| < 0x1_0000
    ensures Flatten(Partition(g, cells)) == cells
    decreases |cells|
  {
    if |cells| > 0 {
      var n := Span(g, cells, KeyOf(g, cells[0]));
      PartitionIsExact(g, cells[n..]);
      FlattenHead(cells[..n], Partition(g, cells[n..]));
      SplitAt(cells, n);
    }
  }

  lemma FlattenHead(head: seq<TerminalCell>, tail: seq<seq<TerminalCell>>)
    ensures Flatten([head] + tail) == head + Flatten(tail)
  {
    assert ([head] + tail)[1..] == tail;
  }

  lemma KeysDrop(g: Grouping, cells: seq<TerminalCell>, n: nat)
    requires n <= |cells|
    ensures Keys(g, cells)[n..] == Keys(g, cells[n..])
  {
  }

  /** One part per stretch of equal keys, so neighbouring parts differ in key. */
  lemma {:induction false} PartitionCollapsesKeys(g: Grouping, cells: seq<TerminalCell>)
    requires |cells| < 0x1_0000
    ensures HeadKeys(g, Partition(g, cells)) == Collapse(Keys(g, cells))
    decreases |cells|
  {
    if |cells| > 0 {
      var keys := Keys(g, cells);
      var n := Span(g, cells, keys[0]);
      PartitionCollapsesKeys(g, cells[n..]);
      CollapseStretch(keys, n);
      KeysDrop(g, cells, n);
      HeadKeysHead(g, cells[..n], Partition(g, cells[n..]));
    }
  }

  lemma HeadKeysFirst(g: Grouping, groups: seq<seq<TerminalCell>>)
    requires |groups| > 0 && AreGroups(g, groups)
    ensures HeadKeys(g, groups) == [KeyOf(g, groups[0][0])] + HeadKeys(g, groups[1..])
  {
  }

  lemma HeadKeysHead(g: Grouping, head: seq<TerminalCell>, tail: seq<seq<TerminalCell>>)
    requires IsGroup(g, head) && AreGroups(g, tail)
    ensures AreGroups(g, [head] + tail)
    ensures HeadKeys(g, [head] + tail) == [KeyOf(g, head[0])] + HeadKeys(g, tail)
  {
  }

  /** The style a group was given stands in the final table under its number. */
  lemma InternedStyle(table: seq<CellStyle>, style: CellStyle, final: seq<CellStyle>)
    requires Intern(table, style) <= final
    ensures IndexOf(Intern(table, style), style) < |final|
    ensures final[IndexOf(Intern(table, style), style)] == style
  {
    if style !in table {
      assert Intern(table, style)[|table|] == style;
    }
  }

  /** `DecodeRow`, folded: the proofs below pass its value on without unrolling it. */
  function RowFrom(styles: seq<CellStyle>, cols: u16, used: nat, runs: seq<WireRun>)
      : Result<seq<TerminalCell>, DecodeError>
  {
    DecodeRow(styles, cols, used, runs)
  }

  lemma RunsForHead(g: Grouping, groups: seq<seq<TerminalCell>>, table: seq<CellStyle>, final: seq<CellStyle>)
    returns (id: u32, next: seq<CellStyle>)
    requires |groups| > 0 && AreGroups(g, groups) && |table| + |groups| <= TWO_TO_THE_32
    requires RunsFor(g, groups, table).1 <= final
    ensures id < |final| && final[id] == StyleOf(groups[0][0])
    ensures |next| + |groups[1..]| <= TWO_TO_THE_32 && RunsFor(g, groups[1..], next).1 <= final
    ensures RunsFor(g, groups, table).0 == [RunFor(g, groups[0], id)] + RunsFor(g, groups[1..], next).0
  {
    var style := StyleOf(groups[0][0]);
    next := Intern(table, style);
    InternedStyle(table, style, final);
    id := IndexOf(next, style);
  }

  lemma {:induction false} GroupsDecode(
    g: Grouping, groups: seq<seq<TerminalCell>>, table: seq<CellStyle>, final: seq<CellStyle>, cols: u16, used: nat)
    requires AreGroups(g, groups) && |table| + |groups| <= TWO_TO_THE_32
    requires used + |Flatten(groups)| == cols
    requires RunsFor(g, groups, table).1 <= final
    ensures RowFrom(final, cols, used, RunsFor(g, groups, table).0) == DecodedRow(Flatten(groups))
    decreases |groups|
  {
    if |groups| == 0 {
      assert CanonicalCells([]) == [];
    } else {
      var id, next := RunsForHead(g, groups, table, final);
      var after := used + |groups[0]|;
      GroupsDecode(g, groups[1..], next, final, cols, after);
      GroupDecodes(g, groups[0], Flatten(groups[1..]), RunsFor(g, groups[1..], next).0, id, final, cols, used, after);
    }
  }

  lemma GroupDecodes(
    g: Grouping, group: seq<TerminalCell>, others: seq<TerminalCell>, tail: seq<WireRun>, id: u32,
    final: seq<CellStyle>, cols: u16, used: nat, after: nat)
    requires IsGroup(g, group) && used + |group| == after && after + |others| == cols
    requires id < |final| && final[id] == StyleOf(group[0])
    requires RowFrom(final, cols, after, tail) == DecodedRow(others)
    ensures RowFrom(final, cols, used, [RunFor(g, group, id)] + tail) == DecodedRow(group + others)
  {
    DecodeRowHead(final, cols, used, RunFor(g, group, id), tail);
    RunDecodes(g, group, id, final, cols, used);
    DecodedRowSplits(group, others);
  }

  lemma DecodeRowHead(styles: seq<CellStyle>, cols: u16, used: nat, run: WireRun, tail: seq<WireRun>)
    ensures DecodeRow(styles, cols, used, [run] + tail) ==
            match DecodeRun(styles, cols, used, run)
            case Err(e) => Err(e)
            case Ok(cells) => Prepend(cells, DecodeRow(styles, cols, used + |cells|, tail))
  {
    assert ([run] + tail)[1..] == tail;
  }

  lemma RowDecodes(g: Grouping, cells: seq<TerminalCell>, table: seq<CellStyle>, final: seq<CellStyle>, cols: u16)
    requires |table| + |cells| <= TWO_TO_THE_32 && |cells| == cols
    requires EncodeRow(g, cells, table).1 <= final
    ensures RowFrom(final, cols, 0, EncodeRow(g, cells, table).0) == DecodedRow(cells)
  {
    PartitionIsExact(g, cells);
    GroupsDecode(g, Partition(g, cells), table, final, cols, 0);
  }

  ghost predicate RowsDecodeTo(styles: seq<CellStyle>, cols: u16, rows: seq<WireRow>, cells: seq<TerminalCell>) {
    DecodeRows(styles, cols, rows) == DecodedRow(cells)
  }

  lemma RowsDecodeStep(
    styles: seq<CellStyle>, cols: u16, row: WireRow, tail: seq<WireRow>, cells: seq<TerminalCell>,
    others: seq<TerminalCell>)
    requires RowFrom(styles, cols, 0, row.runs) == DecodedRow(cells) && RowsDecodeTo(styles, cols, tail, others)
    ensures RowsDecodeTo(styles, cols, [row] + tail, cells + others)
  {
    assert ([row] + tail)[1..] == tail;
    DecodedRowSplits(cells, others);
  }

  lemma FlagsHead(row: WireRow, tail: seq<WireRow>)
    ensures WrappedFlags([row] + tail) == [row.wrapped] + WrappedFlags(tail)
  {
  }

  lemma {:induction false} RowsDecode(
    g: Grouping, rows: seq<seq<TerminalCell>>, wrapped: seq<bool>, table: seq<CellStyle>, final: seq<CellStyle>,
    cols: u16)
    requires |rows| == |wrapped| && (forall row | row in rows :: |row| == cols)
    requires |table| + |Flatten(rows)| <= TWO_TO_THE_32
    requires EncodeRows(g, rows, wrapped, table).1 <= final
    ensures RowsDecodeTo(final, cols, EncodeRows(g, rows, wrapped, table).0, Flatten(rows))
    ensures WrappedFlags(EncodeRows(g, rows, wrapped, table).0) == wrapped
    decreases |rows|
  {
    if |rows| == 0 {
      assert CanonicalCells([]) == [];
    } else {
      var row := EncodeRow(g, rows[0], table);
      var rest := EncodeRows(g, rows[1..], wrapped[1..], row.1);
      assert row.1 <= final;
      RowDecodes(g, rows[0], table, final, cols);
      RowsDecode(g, rows[1..], wrapped[1..], row.1, final, cols);
      RowsDecodeStep(final, cols, WireRow(row.0, wrapped[0]), rest.0, rows[0], Flatten(rows[1..]));
      FlagsHead(WireRow(row.0, wrapped[0]), rest.0);
      assert wrapped == [wrapped[0]] + wrapped[1..];
    }
  }

  function CanonicalSnapshot(s: TerminalSnapshot): TerminalSnapshot {
    s.(cells := CanonicalCells(s.cells))
  }

  /** The trip over the wire, for every valid screen and either grouping. */
  lemma TripOverTheWire(g: Grouping, s: TerminalSnapshot)
    requires Valid(s)
    ensures Decode(EncodeWith(g, s)) ==
            if HasEmptyGrapheme(s.cells) then Err(EmptyGrapheme) else Ok(CanonicalSnapshot(s))
  {
    var rows := EncodeRows(g, Rows(s), s.wrappedRows, [DEFAULT_STYLE]);
    StylesRoundTrip(rows.1);
    RowsDecode(g, Rows(s), s.wrappedRows, [DEFAULT_STYLE], rows.1, s.state.size.cols);
    CanonicalKeepsValid(s);
  }

  lemma CanonicalKeepsValid(s: TerminalSnapshot)
    requires Valid(s)
    ensures Valid(CanonicalSnapshot(s))
  {
    forall i | 0 <= i < |s.cells|
      ensures ValidHyperlink(CanonicalCells(s.cells)[i].hyperlink, |s.state.hyperlinks|)
    {
      assert s.cells[i] in s.cells;
    }
  }

  /** Main result: a valid screen comes back unchanged exactly when its texts are in canonical form. */
  lemma RoundTrip(s: TerminalSnapshot)
    requires Valid(s)
    ensures Decode(Encode(s)) == Ok(s) <==> CanonicalTexts(s.cells)
  {
    TripOverTheWire(ByVariant, s);
    if CanonicalTexts(s.cells) {
      assert !HasEmptyGrapheme(s.cells);
      assert CanonicalCells(s.cells) == s.cells;
    } else {
      var i :| 0 <= i < |s.cells| && !CanonicalText(s.cells[i].contents);
      assert CanonicalCells(s.cells)[i] != s.cells[i];
    }
  }

  // ---------------------------------------------------------------------------------------------
  // Decoding anything
  // ---------------------------------------------------------------------------------------------

  lemma CanonicalTextsConcat(a: seq<TerminalCell>, b: seq<TerminalCell>)
    requires CanonicalTexts(a) && CanonicalTexts(b)
    ensures CanonicalTexts(a + b)
  {
  }

  lemma {:induction false} DecodedRowShape(styles: seq<CellStyle>, cols: u16, used: nat, runs: seq<WireRun>)
    ensures DecodeRow(styles, cols, used, runs).Ok? ==>
              && used + |DecodeRow(styles, cols, used, runs).value| == cols
              && CanonicalTexts(DecodeRow(styles, cols, used, runs).value)
    decreases |runs|
  {
    if |runs| > 0 && DecodeRun(styles, cols, used, runs[0]).Ok? {
      var cells := DecodeRun(styles, cols, used, runs[0]).value;
      DecodedRowShape(styles, cols, used + |cells|, runs[1..]);
      var rest := DecodeRow(styles, cols, used + |cells|, runs[1..]);
      if rest.Ok? {
        CanonicalTextsConcat(cells, rest.value);
      }
    }
  }

  lemma {:induction false} DecodedRowsShape(styles: seq<CellStyle>, cols: u16, rows: seq<WireRow>)
    ensures DecodeRows(styles, cols, rows).Ok? ==> CanonicalTexts(DecodeRows(styles, cols, rows).value)
    decreases |rows|
  {
    if |rows| > 0 && DecodeRow(styles, cols, 0, rows[0].runs).Ok? {
      DecodedRowShape(styles, cols, 0, rows[0].runs);
      DecodedRowsShape(styles, cols, rows[1..]);
      if DecodeRows(styles, cols, rows[1..]).Ok? {
        CanonicalTextsConcat(DecodeRow(styles, cols, 0, rows[0].runs).value, DecodeRows(styles, cols, rows[1..]).value);
      }
    }
  }

  /** Whatever arrives, decoding gives an error or a valid screen, and its texts are canonical. */
  lemma DecodeGivesValidScreens(w: WireSnapshot)
    ensures Decode(w).Ok? ==> Valid(Decode(w).value) && CanonicalTexts(Decode(w).value.cells)
  {
    DecodedRowsShape(FromWireStyles(w.styles), w.state.size.cols, w.rows);
  }

  /**
   Re-encoding settles after one trip: any accepted wire form and its canonical form decode alike, and encode
   alike.
   */
  lemma ReencodingIsIdempotent(w: WireSnapshot)
    requires Decode(w).Ok?
    ensures Valid(Decode(w).value)
    ensures var canonical := Encode(Decode(w).value);
            && Decode(canonical) == Decode(w)
            && Valid(Decode(canonical).value)
            && Encode(Decode(canonical).value) == canonical
  {
    DecodeGivesValidScreens(w);
    RoundTrip(Decode(w).value);
  }

  /** The key a run stands for, read off the wire. */
  function KeyOfRun(styles: seq<CellStyle>, run: WireRun): RunKey
    requires run.style < |styles|
  {
    RunKey(
      if run.empty > 0 then Empties else if |run.text| > 0 then Scalars else Graphemes,
      styles[run.style],
      run.flags)
  }

  ghost predicate RunsHaveKeys(styles: seq<CellStyle>, runs: seq<WireRun>, keys: seq<RunKey>) {
    && |runs| == |keys|
    && forall i | 0 <= i < |runs| ::
         runs[i].style < |styles| && KeyOfRun(styles, runs[i]) == keys[i] && Variants(runs[i]) == 1
  }

  lemma RunsHaveKeysHead(styles: seq<CellStyle>, run: WireRun, runs: seq<WireRun>, key: RunKey, keys: seq<RunKey>)
    requires run.style < |styles| && KeyOfRun(styles, run) == key && Variants(run) == 1
    requires RunsHaveKeys(styles, runs, keys)
    ensures RunsHaveKeys(styles, [run] + runs, [key] + keys)
  {
  }

  lemma RunHasKey(g: Grouping, group: seq<TerminalCell>, id: u32, styles: seq<CellStyle>)
    requires IsGroup(g, group)
    requires id < |styles| && styles[id] == StyleOf(group[0])
    ensures KeyOfRun(styles, RunFor(g, group, id)) == KeyOf(g, group[0])
    ensures Variants(RunFor(g, group, id)) == 1
  {
  }

  /** The runs of groups stand for the keys of the groups. */
  lemma {:induction false} RunsHaveGroupKeys(
    g: Grouping, groups: seq<seq<TerminalCell>>, table: seq<CellStyle>, final: seq<CellStyle>)
    requires AreGroups(g, groups) && |table| + |groups| <= TWO_TO_THE_32
    requires RunsFor(g, groups, table).1 <= final
    ensures RunsHaveKeys(final, RunsFor(g, groups, table).0, HeadKeys(g, groups))
    decreases |groups|
  {
    if |groups| > 0 {
      var id, next := RunsForHead(g, groups, table, final);
      RunHasKey(g, groups[0], id, final);
      RunsHaveGroupKeys(g, groups[1..], next, final);
      HeadKeysFirst(g, groups);
      RunsHaveKeysHead(final, RunFor(g, groups[0], id), RunsFor(g, groups[1..], next).0, KeyOf(g, groups[0][0]),
        HeadKeys(g, groups[1..]));
    }
  }

  // ---------------------------------------------------------------------------------------------
  // No two neighbouring runs share a key
  // ---------------------------------------------------------------------------------------------

  ghost predicate RowIsCanonical(styles: seq<CellStyle>, runs: seq<WireRun>) {
    && (forall i | 0 <= i < |runs| :: runs[i].style < |styles| && Variants(runs[i]) == 1)
    && (forall i | 0 <= i < |runs| - 1 :: KeyOfRun(styles, runs[i]) != KeyOfRun(styles, runs[i + 1]))
  }

  lemma EncodedRowIsCanonical(g: Grouping, cells: seq<TerminalCell>, table: seq<CellStyle>, final: seq<CellStyle>)
    requires |cells| < 0x1_0000 && |table| + |cells| <= TWO_TO_THE_32
    requires EncodeRow(g, cells, table).1 <= final
    ensures RowIsCanonical(final, EncodeRow(g, cells, table).0)
  {
    RunsHaveGroupKeys(g, Partition(g, cells), table, final);
    PartitionCollapsesKeys(g, cells);
    CollapseHasNoEqualNeighbours(Keys(g, cells));
  }

  lemma {:induction false} EncodedRowsAreCanonical(
    g: Grouping, rows: seq<seq<TerminalCell>>, wrapped: seq<bool>, table: seq<CellStyle>, final: seq<CellStyle>)
    requires |rows| == |wrapped| && (forall row | row in rows :: |row| < 0x1_0000)
    requires |table| + |Flatten(rows)| <= TWO_TO_THE_32
    requires EncodeRows(g, rows, wrapped, table).1 <= final
    ensures forall i | 0 <= i < |rows| :: RowIsCanonical(final, EncodeRows(g, rows, wrapped, table).0[i].runs)
    decreases |rows|
  {
    if |rows| > 0 {
      var row := EncodeRow(g, rows[0], table);
      var rest := EncodeRows(g, rows[1..], wrapped[1..], row.1);
      assert row.1 <= rest.1;
      EncodedRowIsCanonical(g, rows[0], table, final);
      EncodedRowsAreCanonical(g, rows[1..], wrapped[1..], row.1, final);
    }
  }

  /** In the program's wire form, neighbouring runs of a row differ in variant, style or flags. */
  lemma EncodingIsCanonical(s: TerminalSnapshot)
    requires Valid(s)
    ensures forall row | row in Encode(s).rows :: RowIsCanonical(FromWireStyles(Encode(s).styles), row.runs)
  {
    var rows := EncodeRows(ByVariant, Rows(s), s.wrappedRows, [DEFAULT_STYLE]);
    StylesRoundTrip(rows.1);
    EncodedRowsAreCanonical(ByVariant, Rows(s), s.wrappedRows, [DEFAULT_STYLE], rows.1);
  }

  // ---------------------------------------------------------------------------------------------
  // How many runs a screen needs
  // ---------------------------------------------------------------------------------------------

  function RunCount(rows: seq<WireRow>): nat {
    if |rows| == 0 then 0 else |rows[0].runs| + RunCount(rows[1..])
  }

  /** The number of stretches of like cells, over all rows. */
  function GroupCount(g: Grouping, rows: seq<seq<TerminalCell>>): nat {
    if |rows| == 0 then 0 else |Collapse(Keys(g, rows[0]))| + GroupCount(g, rows[1..])
  }

  lemma {:induction false} EncodedRunCount(
    g: Grouping, rows: seq<seq<TerminalCell>>, wrapped: seq<bool>, table: seq<CellStyle>)
    requires |rows| == |wrapped| && (forall row | row in rows :: |row| < 0x1_0000)
    requires |table| + |Flatten(rows)| <= TWO_TO_THE_32
    ensures RunCount(EncodeRows(g, rows, wrapped, table).0) == GroupCount(g, rows)
    decreases |rows|
  {
    if |rows| > 0 {
      var row := EncodeRow(g, rows[0], table);
      PartitionCollapsesKeys(g, rows[0]);
      EncodedRunCount(g, rows[1..], wrapped[1..], row.1);
      assert EncodeRows(g, rows, wrapped, table).0[1..] == EncodeRows(g, rows[1..], wrapped[1..], row.1).0;
    }
  }

  lemma {:induction false} CollapseConcat<K>(a: seq<K>, b: seq<K>)
    ensures |Collapse(a + b)| <= |Collapse(a)| + |Collapse(b)|
    decreases |a|
  {
    if |a| == 0 {
      assert a + b == b;
    } else {
      assert (a + b)[1..] == a[1..] + b;
      CollapseConcat(a[1..], b);
      if |a| == 1 {
        assert a[1..] + b == b;
      }
    }
  }

  lemma {:induction false} CollapseConstant<K>(keys: seq<K>)
    requires |keys| > 0 && forall i | 0 <= i < |keys| :: keys[i] == keys[0]
    ensures |Collapse(keys)| == 1
  {
    CollapseStretch(keys, |keys|);
    assert keys[|keys|..] == [];
  }

  /**
   Every accepted run covers cells of one coarse key, so a row takes at least as many runs as it has coarse
   stretches.
   */
  lemma {:induction false} RowNeedsRuns(styles: seq<CellStyle>, cols: u16, used: nat, runs: seq<WireRun>)
    requires DecodeRow(styles, cols, used, runs).Ok?
    ensures |Collapse(Keys(ByEmptiness, DecodeRow(styles, cols, used, runs).value))| <= |runs|
    decreases |runs|
  {
    if |runs| > 0 {
      var cells, after, rest := DecodedParts(styles, cols, used, runs);
      RowNeedsRuns(styles, cols, after, runs[1..]);
      RunHasOneCoarseKey(styles, cols, used, runs[0]);
      OneStretchMore(ByEmptiness, cells, rest);
    }
  }

  lemma OneStretchMore(g: Grouping, cells: seq<TerminalCell>, rest: seq<TerminalCell>)
    requires |cells| > 0 && forall i | 0 <= i < |cells| :: KeyOf(g, cells[i]) == KeyOf(g, cells[0])
    ensures |Collapse(Keys(g, cells + rest))| <= 1 + |Collapse(Keys(g, rest))|
  {
    CollapseConstant(Keys(g, cells));
    CollapseConcat(Keys(g, cells), Keys(g, rest));
    assert Keys(g, cells + rest) == Keys(g, cells) + Keys(g, rest);
  }

  /** The cells of the first run of a row, the column after them, and the other cells. */
  lemma DecodedParts(styles: seq<CellStyle>, cols: u16, used: nat, runs: seq<WireRun>)
    returns (cells: seq<TerminalCell>, after: nat, rest: seq<TerminalCell>)
    requires |runs| > 0 && DecodeRow(styles, cols, used, runs).Ok?
    ensures DecodeRun(styles, cols, used, runs[0]) == Ok(cells) && after == used + |cells|
    ensures DecodeRow(styles, cols, after, runs[1..]) == Ok(rest)
    ensures DecodeRow(styles, cols, used, runs) == Ok(cells + rest)
  {
    cells := DecodeRun(styles, cols, used, runs[0]).value;
    after := used + |cells|;
    rest := DecodeRow(styles, cols, after, runs[1..]).value;
  }

  lemma RunHasOneCoarseKey(styles: seq<CellStyle>, cols: u16, used: nat, run: WireRun)
    requires DecodeRun(styles, cols, used, run).Ok?
    ensures var cells := DecodeRun(styles, cols, used, run).value;
            |cells| > 0 && forall i | 0 <= i < |cells| :: KeyOf(ByEmptiness, cells[i]) == KeyOf(ByEmptiness, cells[0])
  {
    var cells := DecodeRun(styles, cols, used, run).value;
    forall i | 0 <= i < |cells|
      ensures VariantOf(ByEmptiness, cells[i].contents) == if run.empty > 0 then Empties else Graphemes
    {
      if run.empty == 0 && |run.text| == 0 {
        assert run.graphemes[i] in run.graphemes;
      }
    }
  }

  lemma {:induction false} RowsNeedRuns(
    styles: seq<CellStyle>, cols: u16, rows: seq<WireRow>, grid: seq<seq<TerminalCell>>)
    requires |rows| == |grid| && (forall row | row in grid :: |row| == cols)
    requires DecodeRows(styles, cols, rows) == Ok(Flatten(grid))
    ensures GroupCount(ByEmptiness, grid) <= RunCount(rows)
    decreases |rows|
  {
    if |rows| > 0 {
      var cells := DecodeRow(styles, cols, 0, rows[0].runs).value;
      var rest := DecodeRows(styles, cols, rows[1..]).value;
      DecodedRowShape(styles, cols, 0, rows[0].runs);
      assert cells == (cells + rest)[..cols] && rest == (cells + rest)[cols..];
      assert grid[0] == Flatten(grid)[..cols] && Flatten(grid[1..]) == Flatten(grid)[cols..];
      RowNeedsRuns(styles, cols, 0, rows[0].runs);
      RowsNeedRuns(styles, cols, rows[1..], grid[1..]);
    }
  }

  /**
   A one-character cell beside a longer one, in the same style: two runs for the program, one for a cleverer
   encoder.
   */
  predicate MixedAt(row: seq<TerminalCell>, i: nat)
    requires i + 1 < |row|
  {
    KeyOf(ByVariant, row[i]) != KeyOf(ByVariant, row[i + 1])
      && KeyOf(ByEmptiness, row[i]) == KeyOf(ByEmptiness, row[i + 1])
  }

  predicate MixedRow(row: seq<TerminalCell>) {
    exists i: nat | i + 1 < |row| :: MixedAt(row, i)
  }

  /** `MixedAt` in plain words. */
  lemma MixedAtMeans(row: seq<TerminalCell>, i: nat)
    requires i + 1 < |row|
    ensures MixedAt(row, i) <==>
            && StyleOf(row[i]) == StyleOf(row[i + 1]) && CellFlags(row[i]) == CellFlags(row[i + 1])
            && ((row[i].contents.Scalar? && row[i + 1].contents.Grapheme?)
               || (row[i].contents.Grapheme? && row[i + 1].contents.Scalar?))
  {
  }

  lemma {:induction false} FineAgainstCoarse(row: seq<TerminalCell>)
    ensures |Collapse(Keys(ByEmptiness, row))| <= |Collapse(Keys(ByVariant, row))|
    ensures |Collapse(Keys(ByEmptiness, row))| == |Collapse(Keys(ByVariant, row))| <==> !MixedRow(row)
  {
    if |row| > 1 {
      var tail := row[1..];
      FineAgainstCoarse(tail);
      assert Keys(ByVariant, row)[1..] == Keys(ByVariant, tail);
      assert Keys(ByEmptiness, row)[1..] == Keys(ByEmptiness, tail);
      assert MixedRow(row) <==> MixedAt(row, 0) || MixedRow(tail) by {
        if MixedRow(row) {
          var i: nat :| i + 1 < |row| && MixedAt(row, i);
          if i > 0 {
            assert MixedAt(tail, i - 1);
          }
        }
        if MixedRow(tail) {
          var i: nat :| i + 1 < |tail| && MixedAt(tail, i);
          assert MixedAt(row, i + 1);
        }
      }
      assert KeyOf(ByVariant, row[0]) == KeyOf(ByVariant, row[1]) ==>
        KeyOf(ByEmptiness, row[0]) == KeyOf(ByEmptiness, row[1]);
    }
  }

  predicate MixedNeighbours(s: TerminalSnapshot)
    requires Valid(s)
  {
    exists row | row in Rows(s) :: MixedRow(row)
  }

  lemma {:induction false} CountsAgree(rows: seq<seq<TerminalCell>>)
    ensures GroupCount(ByEmptiness, rows) <= GroupCount(ByVariant, rows)
    ensures GroupCount(ByEmptiness, rows) == GroupCount(ByVariant, rows) <==> !exists row | row in rows :: MixedRow(row)
  {
    if |rows| > 0 {
      FineAgainstCoarse(rows[0]);
      CountsAgree(rows[1..]);
      assert rows == [rows[0]] + rows[1..];
    }
  }

  /** No wire form of a screen has fewer runs than the screen has coarse stretches. */
  lemma ScreenNeedsRuns(s: TerminalSnapshot, w: WireSnapshot)
    requires Valid(s) && Decode(w) == Ok(s)
    ensures GroupCount(ByEmptiness, Rows(s)) <= RunCount(w.rows)
  {
    RowsNeedRuns(FromWireStyles(w.styles), s.state.size.cols, w.rows, Rows(s));
  }

  ghost predicate FewestRuns(s: TerminalSnapshot)
    requires Valid(s)
  {
    forall w: WireSnapshot | Decode(w) == Ok(s) :: RunCount(Encode(s).rows) <= RunCount(w.rows)
  }

  /** Main result: the program's encoding has the fewest runs exactly when the screen has no mixed neighbours. */
  lemma LeastRuns(s: TerminalSnapshot)
    requires Valid(s) && CanonicalTexts(s.cells)
    ensures FewestRuns(s) <==> !MixedNeighbours(s)
  {
    var clever := EncodeWith(ByEmptiness, s);
    TripOverTheWire(ByEmptiness, s);
    assert CanonicalCells(s.cells) == s.cells && !HasEmptyGrapheme(s.cells);
    EncodedRunCount(ByEmptiness, Rows(s), s.wrappedRows, [DEFAULT_STYLE]);
    EncodedRunCount(ByVariant, Rows(s), s.wrappedRows, [DEFAULT_STYLE]);
    CountsAgree(Rows(s));
    if !MixedNeighbours(s) {
      forall w: WireSnapshot | Decode(w) == Ok(s)
        ensures RunCount(Encode(s).rows) <= RunCount(w.rows)
      {
        ScreenNeedsRuns(s, w);
      }
    } else {
      assert Decode(clever) == Ok(s) && RunCount(clever.rows) < RunCount(Encode(s).rows);
    }
  }

  /** A screen of two cells, `a` and a combining sequence, that the program sends as two runs where one would do. */
  lemma TwoRunsWhereOneWouldDo() returns (s: TerminalSnapshot)
    ensures Valid(s) && CanonicalTexts(s.cells) && !FewestRuns(s)
  {
    var blank := Blank(TerminalSize(1, 2));
    var cells := [BLANK_CELL.(contents := Scalar('a')), BLANK_CELL.(contents := Grapheme("e'"))];
    s := blank.(cells := cells);
    var row := Rows(s)[0];
    FlattenChunks(cells, 1, 2);
    assert Chunks(cells, 1, 2)[1..] == [];
    assert row == cells;
    assert MixedAt(row, 0);
    assert row in Rows(s);
    LeastRuns(s);
  }
}
