/**
 The screen of one agent as a value, and the diffs the server sends between two screens.

 `LiveScreen` is the in-place form a client keeps; its `Apply` is proved against the function
 `Apply`, and the lemmas say what that function promises: a diff taken between two screens of the
 same size rebuilds the second one exactly, and no diff whatsoever can make a valid screen invalid.
 */
module TerminalModel {
  import opened Basics

  datatype TerminalSize = TerminalSize(rows: u16, cols: u16) {
    function CellCount(): nat {
      rows * cols
    }
  }

  datatype TerminalColor = Default | Indexed(index: u8) | Rgb(red: u8, green: u8, blue: u8)

  datatype TerminalAttributes = TerminalAttributes(
    bold: bool, dim: bool, italic: bool, underline: bool,
    inverse: bool, blink: bool, hidden: bool, strikethrough: bool)

  const PLAIN := TerminalAttributes(false, false, false, false, false, false, false, false)

  /** What one cell shows. `FromText` builds `Grapheme` only for two or more characters. */
  datatype TerminalText = Empty | Scalar(character: char) | Grapheme(text: string)

  function FromText(text: string): TerminalText {
    if |text| == 0 then Empty else if |text| == 1 then Scalar(text[0]) else Grapheme(text)
  }

  datatype TerminalCell = TerminalCell(
    contents: TerminalText,
    foreground: TerminalColor,
    background: TerminalColor,
    attributes: TerminalAttributes,
    wide: bool,
    wideContinuation: bool,
    hyperlink: Option<u32>)

  const BLANK_CELL := TerminalCell(Empty, Default, Default, PLAIN, false, false, None)

  /** The state besides the grid. Everything that no check inspects is kept as one value, `other`. */
  datatype TerminalState = TerminalState(
    size: TerminalSize,
    scrollback: nat,
    hyperlinks: seq<string>,
    other: OtherState)

  datatype OtherState = OtherState(
    cursorRow: u16, cursorColumn: u16, cursorVisible: bool, cursorStyle: u8,
    alternateScreen: bool, modes: seq<bool>, title: string, workingDirectory: Option<string>)

  datatype TerminalSnapshot = TerminalSnapshot(
    state: TerminalState,
    cells: seq<TerminalCell>,
    wrappedRows: seq<bool>)

  datatype CellPatch = CellPatch(index: u32, cell: TerminalCell)
  datatype RowPatch = RowPatch(row: u16, wrapped: bool)
  datatype SnapshotDiff = SnapshotDiff(state: TerminalState, cells: seq<CellPatch>, wrappedRows: seq<RowPatch>)

  datatype ModelError = Size | CellCount | WrappedRowCount | CellIndex | RowIndex | Hyperlink

  predicate ValidHyperlink(hyperlink: Option<u32>, count: nat) {
    hyperlink.Some? ==> 0 < hyperlink.value <= count
  }

  function Validate(s: TerminalSnapshot): Result<(), ModelError> {
    if |s.cells| != s.state.size.CellCount() then Err(CellCount)
    else if |s.wrappedRows| != s.state.size.rows then Err(WrappedRowCount)
    else if exists cell | cell in s.cells :: !ValidHyperlink(cell.hyperlink, |s.state.hyperlinks|) then Err(Hyperlink)
    else Ok(())
  }

  predicate Valid(s: TerminalSnapshot) {
    Validate(s).Ok?
  }

  /** The empty screen every terminal starts from. */
  function Blank(size: TerminalSize): (s: TerminalSnapshot)
    ensures Valid(s) && s.state.size == size
  {
    TerminalSnapshot(
      TerminalState(size, 0, [], OtherState(0, 0, true, 0, false, [], "", None)),
      seq(size.CellCount(), _ => BLANK_CELL),
      seq(size.rows, _ => false))
  }

  // ---------------------------------------------------------------------------------------------
  // Taking a diff
  // ---------------------------------------------------------------------------------------------

  /** The patches for the cells from `from` on; the index is cast to 32 bits, as on the wire. */
  function CellPatches(before: seq<TerminalCell>, after: seq<TerminalCell>, from: nat): seq<CellPatch>
    decreases |before| - from
  {
    if from >= |before| || from >= |after| then []
    else
      var rest := CellPatches(before, after, from + 1);
      if before[from] != after[from] then [CellPatch(ToU32(from), after[from])] + rest else rest
  }

  function RowPatches(before: seq<bool>, after: seq<bool>, from: nat): seq<RowPatch>
    decreases |before| - from
  {
    if from >= |before| || from >= |after| then []
    else
      var rest := RowPatches(before, after, from + 1);
      if before[from] != after[from] then [RowPatch(ToU16(from), after[from])] + rest else rest
  }

  function Diff(before: TerminalSnapshot, next: TerminalSnapshot): Option<SnapshotDiff> {
    if before.state.size == next.state.size then
      Some(SnapshotDiff(
             next.state,
             CellPatches(before.cells, next.cells, 0),
             RowPatches(before.wrappedRows, next.wrappedRows, 0)))
    else None
  }

  // ---------------------------------------------------------------------------------------------
  // Applying a diff
  // ---------------------------------------------------------------------------------------------

  predicate IndicesFit(patches: seq<CellPatch>, count: nat) {
    forall p | p in patches :: p.index < count
  }

  predicate RowsFit(patches: seq<RowPatch>, count: nat) {
    forall p | p in patches :: p.row < count
  }

  predicate Patches(patches: seq<CellPatch>, index: nat) {
    exists p | p in patches :: p.index == index
  }

  function PatchCells(cells: seq<TerminalCell>, patches: seq<CellPatch>): (r: seq<TerminalCell>)
    requires IndicesFit(patches, |cells|)
    ensures |r| == |cells|
    decreases |patches|
  {
    if patches == [] then cells
    else
      assert patches[0] in patches;
      PatchCells(cells[patches[0].index := patches[0].cell], patches[1..])
  }

  function PatchRows(rows: seq<bool>, patches: seq<RowPatch>): (r: seq<bool>)
    requires RowsFit(patches, |rows|)
    ensures |r| == |rows|
    decreases |patches|
  {
    if patches == [] then rows
    else
      assert patches[0] in patches;
      PatchRows(rows[patches[0].row := patches[0].wrapped], patches[1..])
  }

  /** The first check of `apply` that a diff fails on a screen, in the order they are made. */
  function Refusal(s: TerminalSnapshot, d: SnapshotDiff): Option<ModelError> {
    var count := |d.state.hyperlinks|;
    if s.state.size != d.state.size then Some(Size)
    else if !IndicesFit(d.cells, |s.cells|) then Some(CellIndex)
    else if !RowsFit(d.wrappedRows, s.state.size.rows) then Some(RowIndex)
    else if exists p | p in d.cells :: !ValidHyperlink(p.cell.hyperlink, count) then Some(Hyperlink)
    else if exists i | 0 <= i < |s.cells| :: !ValidHyperlink(s.cells[i].hyperlink, count) && !Patches(d.cells, i) then
      Some(Hyperlink)
    else None
  }

  function Apply(s: TerminalSnapshot, d: SnapshotDiff): Result<TerminalSnapshot, ModelError>
    requires Valid(s)
  {
    match Refusal(s, d)
    case Some(error) => Err(error)
    case None =>
      Ok(TerminalSnapshot(d.state, PatchCells(s.cells, d.cells), PatchRows(s.wrappedRows, d.wrappedRows)))
  }

  /** A client's copy of a screen, patched in place. */
  class LiveScreen {
    var state: TerminalState
    var cells: array<TerminalCell>
    var wrappedRows: array<bool>

    ghost predicate WellFormed()
      reads this, cells, wrappedRows
    {
      Valid(Value())
    }

    function Value(): TerminalSnapshot
      reads this, cells, wrappedRows
    {
      TerminalSnapshot(state, cells[..], wrappedRows[..])
    }

    constructor (s: TerminalSnapshot)
      requires Valid(s)
      ensures WellFormed() && Value() == s && fresh(cells) && fresh(wrappedRows)
    {
      state := s.state;
      cells := new TerminalCell[|s.cells|](i requires 0 <= i < |s.cells| => s.cells[i]);
      wrappedRows := new bool[|s.wrappedRows|](i requires 0 <= i < |s.wrappedRows| => s.wrappedRows[i]);
      new;
      assert cells[..] == s.cells;
      assert wrappedRows[..] == s.wrappedRows;
    }

    /** The checks of `apply`, in order; nothing has been written yet. */
    method Check(d: SnapshotDiff) returns (refusal: Option<ModelError>)
      requires WellFormed()
      ensures refusal == Refusal(Value(), d)
    {
      var count := |d.state.hyperlinks|;
      if state.size != d.state.size {
        return Some(Size);
      }
      if exists p | p in d.cells :: p.index >= cells.Length {
        return Some(CellIndex);
      }
      if exists p | p in d.wrappedRows :: p.row >= state.size.rows {
        return Some(RowIndex);
      }
      if exists p | p in d.cells :: !ValidHyperlink(p.cell.hyperlink, count) {
        return Some(Hyperlink);
      }
      ghost var now := cells[..];
      assert forall i | 0 <= i < cells.Length :: cells[i] == now[i];
      if exists i | 0 <= i < cells.Length :: !ValidHyperlink(cells[i].hyperlink, count) && !Patches(d.cells, i) {
        return Some(Hyperlink);
      }
      return None;
    }

    method ApplyDiff(d: SnapshotDiff) returns (r: Result<(), ModelError>)
      requires WellFormed()
      modifies this`state, cells, wrappedRows
      ensures WellFormed()
      ensures r.Ok? <==> Apply(old(Value()), d).Ok?
      ensures r.Ok? ==> Value() == Apply(old(Value()), d).value
      ensures r.Err? ==> r.error == Apply(old(Value()), d).error && Value() == old(Value())
    {
      var refusal := Check(d);
      if refusal.Some? {
        return Err(refusal.value);
      }
      ApplyKeepsValid(Value(), d);
      WriteCells(cells, d.cells);
      WriteRows(wrappedRows, d.wrappedRows);
      state := d.state;
      r := Ok(());
    }

    static method WriteCells(cells: array<TerminalCell>, patches: seq<CellPatch>)
      requires IndicesFit(patches, cells.Length)
      modifies cells
      ensures cells[..] == PatchCells(old(cells[..]), patches)
    {
      assert patches[0..] == patches;
      for i := 0 to |patches|
        invariant IndicesFit(patches[i..], cells.Length)
        invariant PatchCells(cells[..], patches[i..]) == PatchCells(old(cells[..]), patches)
      {
        var patch := patches[i];
        assert patches[i..][0] == patch && patches[i..][1..] == patches[i + 1..];
        ghost var now := cells[..];
        cells[patch.index] := patch.cell;
        assert cells[..] == now[patch.index := patch.cell];
      }
    }

    static method WriteRows(rows: array<bool>, patches: seq<RowPatch>)
      requires RowsFit(patches, rows.Length)
      modifies rows
      ensures rows[..] == PatchRows(old(rows[..]), patches)
    {
      assert patches[0..] == patches;
      for i := 0 to |patches|
        invariant RowsFit(patches[i..], rows.Length)
        invariant PatchRows(rows[..], patches[i..]) == PatchRows(old(rows[..]), patches)
      {
        var patch := patches[i];
        assert patches[i..][0] == patch && patches[i..][1..] == patches[i + 1..];
        ghost var now := rows[..];
        rows[patch.row] := patch.wrapped;
        assert rows[..] == now[patch.row := patch.wrapped];
      }
    }
  }

  // ---------------------------------------------------------------------------------------------
  // No diff breaks a valid screen
  // ---------------------------------------------------------------------------------------------

  /** A patched cell holds the cell of one of its patches; an unpatched cell is untouched. */
  lemma {:induction false} PatchedCell(cells: seq<TerminalCell>, patches: seq<CellPatch>, i: nat)
    requires IndicesFit(patches, |cells|) && i < |cells|
    ensures Patches(patches, i) ==> exists p | p in patches :: p.index == i && PatchCells(cells, patches)[i] == p.cell
    ensures !Patches(patches, i) ==> PatchCells(cells, patches)[i] == cells[i]
    decreases |patches|
  {
    if patches != [] {
      var head, tail := patches[0], patches[1..];
      assert head in patches;
      PatchedCell(cells[head.index := head.cell], tail, i);
      if Patches(tail, i) {
        var p :| p in tail && p.index == i && PatchCells(cells, patches)[i] == p.cell;
        assert p in patches;
      } else if Patches(patches, i) {
        var p :| p in patches && p.index == i;
        assert p == head;
        assert PatchCells(cells, patches)[i] == head.cell;
      }
    }
  }

  /** Whatever the diff, a valid screen stays as it is or becomes another valid screen. */
  lemma ApplyKeepsValid(s: TerminalSnapshot, d: SnapshotDiff)
    requires Valid(s)
    ensures Apply(s, d).Ok? ==> Valid(Apply(s, d).value) && Apply(s, d).value.state == d.state
  {
    if Apply(s, d).Ok? {
      var next := Apply(s, d).value;
      forall i | 0 <= i < |next.cells|
        ensures ValidHyperlink(next.cells[i].hyperlink, |d.state.hyperlinks|)
      {
        PatchedCell(s.cells, d.cells, i);
      }
    }
  }

  /**
   `apply` refuses nothing it need not refuse: a diff goes through exactly when it is for this size,
   points into the grid, carries only hyperlinks of its own table, and leaves a valid screen.
   */
  lemma ApplyAcceptsExactly(s: TerminalSnapshot, d: SnapshotDiff)
    requires Valid(s)
    ensures Apply(s, d).Ok? <==>
            && s.state.size == d.state.size
            && IndicesFit(d.cells, |s.cells|)
            && RowsFit(d.wrappedRows, |s.wrappedRows|)
            && (forall p | p in d.cells :: ValidHyperlink(p.cell.hyperlink, |d.state.hyperlinks|))
            && Valid(TerminalSnapshot(d.state, PatchCells(s.cells, d.cells), PatchRows(s.wrappedRows, d.wrappedRows)))
  {
    ApplyKeepsValid(s, d);
    if IndicesFit(d.cells, |s.cells|) {
      forall i | 0 <= i < |s.cells| && !Patches(d.cells, i)
        ensures PatchCells(s.cells, d.cells)[i] == s.cells[i] && s.cells[i] in PatchCells(s.cells, d.cells)
      {
        PatchedCell(s.cells, d.cells, i);
        assert PatchCells(s.cells, d.cells)[i] == s.cells[i];
      }
    }
  }

  // ---------------------------------------------------------------------------------------------
  // A diff rebuilds the screen it was taken for
  // ---------------------------------------------------------------------------------------------

  lemma CellCountFits(size: TerminalSize)
    ensures size.CellCount() <= 65535 * 65535 < TWO_TO_THE_32
  {
    MultiplyMonotone(size.rows, 65535, size.cols);
    MultiplyMonotone(size.cols, 65535, 65535);
  }

  lemma MultiplyMonotone(a: nat, b: nat, c: nat)
    requires a <= b
    ensures a * c <= b * c && c * a <= c * b
  {
    assert (b - a) * c >= 0;
  }

  /** Each patch is for a cell at or after `from` that differs, and carries its new contents. */
  ghost predicate OnlyChanges(before: seq<TerminalCell>, after: seq<TerminalCell>, from: nat, patches: seq<CellPatch>) {
    forall p | p in patches ::
      from <= p.index < |before| && p.index < |after| && before[p.index] != after[p.index] && p.cell == after[p.index]
  }

  ghost predicate AllChanges(before: seq<TerminalCell>, after: seq<TerminalCell>, from: nat, patches: seq<CellPatch>) {
    forall i | from <= i < |before| && i < |after| && before[i] != after[i] :: Patches(patches, i)
  }

  ghost predicate Ascending(patches: seq<CellPatch>) {
    forall j, k | 0 <= j < k < |patches| :: patches[j].index < patches[k].index
  }

  lemma {:induction false} PatchesAreChanges(before: seq<TerminalCell>, after: seq<TerminalCell>, from: nat)
    requires |before| == |after| < TWO_TO_THE_32
    ensures OnlyChanges(before, after, from, CellPatches(before, after, from))
    ensures Ascending(CellPatches(before, after, from))
    decreases |before| - from
  {
    if from < |before| {
      PatchesAreChanges(before, after, from + 1);
      var rest := CellPatches(before, after, from + 1);
      assert forall k | 0 <= k < |rest| :: rest[k] in rest;
    }
  }

  lemma {:induction false} ChangesArePatched(before: seq<TerminalCell>, after: seq<TerminalCell>, from: nat, i: nat)
    requires |before| == |after| < TWO_TO_THE_32
    requires from <= i < |before| && before[i] != after[i]
    ensures Patches(CellPatches(before, after, from), i)
    decreases |before| - from
  {
    var all := CellPatches(before, after, from);
    if from == i {
      assert all[0] in all;
    } else {
      ChangesArePatched(before, after, from + 1, i);
      var p :| p in CellPatches(before, after, from + 1) && p.index == i;
      assert p in all;
    }
  }

  /** The screen half way through: new up to `at`, old from there on. */
  function Mixed<T>(before: seq<T>, after: seq<T>, at: nat): (r: seq<T>)
    requires |before| == |after| && at <= |before|
    ensures |r| == |before|
    ensures at < |before| ==> r[at] == before[at]
  {
    after[..at] + before[at..]
  }

  lemma MixedStep<T>(before: seq<T>, after: seq<T>, at: nat)
    requires |before| == |after| && at < |before|
    ensures Mixed(before, after, at)[at := after[at]] == Mixed(before, after, at + 1)
    ensures before[at] == after[at] ==> Mixed(before, after, at) == Mixed(before, after, at + 1)
  {
  }

  lemma MixedEnds<T>(before: seq<T>, after: seq<T>)
    requires |before| == |after|
    ensures Mixed(before, after, 0) == before && Mixed(before, after, |before|) == after
  {
  }

  lemma {:induction false} PatchesRebuildCells(before: seq<TerminalCell>, after: seq<TerminalCell>, from: nat)
    requires |before| == |after| < TWO_TO_THE_32 && from <= |before|
    ensures IndicesFit(CellPatches(before, after, from), |before|)
    ensures PatchCells(Mixed(before, after, from), CellPatches(before, after, from)) == after
    decreases |before| - from
  {
    MixedEnds(before, after);
    if from < |before| {
      PatchesRebuildCells(before, after, from + 1);
      MixedStep(before, after, from);
      var all := CellPatches(before, after, from);
      if before[from] != after[from] {
        assert all[1..] == CellPatches(before, after, from + 1);
      }
    }
  }

  lemma {:induction false} PatchesRebuildRows(before: seq<bool>, after: seq<bool>, from: nat)
    requires |before| == |after| < 0x1_0000 && from <= |before|
    ensures RowsFit(RowPatches(before, after, from), |before|)
    ensures PatchRows(Mixed(before, after, from), RowPatches(before, after, from)) == after
    decreases |before| - from
  {
    MixedEnds(before, after);
    if from < |before| {
      PatchesRebuildRows(before, after, from + 1);
      MixedStep(before, after, from);
      var all := RowPatches(before, after, from);
      if before[from] != after[from] {
        assert all[1..] == RowPatches(before, after, from + 1);
      }
    }
  }

  /** No check of `apply` stops a diff between two screens of one size. */
  lemma DiffIsNotRefused(s: TerminalSnapshot, t: TerminalSnapshot)
    requires Valid(s) && Valid(t) && s.state.size == t.state.size
    ensures Refusal(s, Diff(s, t).value) == None
  {
    var d := Diff(s, t).value;
    CellCountFits(s.state.size);
    PatchesAreChanges(s.cells, t.cells, 0);
    PatchesRebuildRows(s.wrappedRows, t.wrappedRows, 0);
    forall p | p in d.cells
      ensures ValidHyperlink(p.cell.hyperlink, |t.state.hyperlinks|)
    {
      assert p.cell in t.cells;
    }
    forall i | 0 <= i < |s.cells|
      ensures ValidHyperlink(s.cells[i].hyperlink, |t.state.hyperlinks|) || Patches(d.cells, i)
    {
      assert t.cells[i] in t.cells;
      if s.cells[i] != t.cells[i] {
        ChangesArePatched(s.cells, t.cells, 0, i);
      }
    }
  }

  /** Main result: between two valid screens of one size, the diff is exact, and applying it gives the second screen. */
  lemma DiffRebuilds(s: TerminalSnapshot, t: TerminalSnapshot)
    requires Valid(s) && Valid(t)
    ensures Diff(s, t).Some? <==> s.state.size == t.state.size
    ensures Diff(s, t).Some? ==>
              var patches := Diff(s, t).value.cells;
              && Apply(s, Diff(s, t).value) == Ok(t)
              && OnlyChanges(s.cells, t.cells, 0, patches) && AllChanges(s.cells, t.cells, 0, patches)
              && Ascending(patches)
  {
    if s.state.size == t.state.size {
      CellCountFits(s.state.size);
      DiffIsNotRefused(s, t);
      PatchesAreChanges(s.cells, t.cells, 0);
      forall i | 0 <= i < |s.cells| && s.cells[i] != t.cells[i]
        ensures Patches(CellPatches(s.cells, t.cells, 0), i)
      {
        ChangesArePatched(s.cells, t.cells, 0, i);
      }
      MixedEnds(s.cells, t.cells);
      MixedEnds(s.wrappedRows, t.wrappedRows);
      PatchesRebuildCells(s.cells, t.cells, 0);
      PatchesRebuildRows(s.wrappedRows, t.wrappedRows, 0);
    }
  }

  lemma {:induction false} AscendingAreDistinct(patches: seq<CellPatch>)
    requires Ascending(patches)
    ensures |set p | p in patches :: p.index| == |patches|
  {
    var all := set p | p in patches :: p.index;
    if |patches| == 0 {
      assert all == {};
    } else {
      var front, last := patches[..|patches| - 1], patches[|patches| - 1];
      AscendingAreDistinct(front);
      assert all == (set p | p in front :: p.index) + {last.index};
    }
  }

  lemma {:induction false} FewerIndicesThanPatches(patches: seq<CellPatch>)
    ensures |set p | p in patches :: p.index| <= |patches|
  {
    var all := set p | p in patches :: p.index;
    if |patches| == 0 {
      assert all == {};
    } else {
      var front, last := patches[..|patches| - 1], patches[|patches| - 1];
      FewerIndicesThanPatches(front);
      assert all == (set p | p in front :: p.index) + {last.index};
    }
  }

  lemma SubsetIsSmaller<T>(a: set<T>, b: set<T>)
    requires a <= b
    ensures |a| <= |b|
  {
    assert b == a + (b - a);
  }

  /** Among all diffs that turn `s` into `t`, the program's carries the fewest cell patches. */
  lemma DiffIsMinimal(s: TerminalSnapshot, t: TerminalSnapshot, other: SnapshotDiff)
    requires Valid(s) && Valid(t) && s.state.size == t.state.size
    requires Apply(s, other) == Ok(t)
    ensures |Diff(s, t).value.cells| <= |other.cells|
  {
    DiffRebuilds(s, t);
    var mine := Diff(s, t).value.cells;
    forall p | p in mine
      ensures Patches(other.cells, p.index)
    {
      PatchedCell(s.cells, other.cells, p.index);
    }
    AscendingAreDistinct(mine);
    FewerIndicesThanPatches(other.cells);
    SubsetIsSmaller(set p | p in mine :: p.index, set p | p in other.cells :: p.index);
  }
}
