/**
 The thread that reads an agent's output: it hands every byte to the emulator, acts on the sequences
 recognized along the way, and answers the agent's questions.

 The emulator is whatever it makes of the bytes it has been given, in order; all that is read back from
 it here is the cursor, so it appears as a function from the bytes received to a cursor.
 */
module Reader {
  import opened Basics
  import C = Controls
  import Q = ColorQueries

  /** A cursor row or column is less than a 16-bit count of rows or columns. */
  type coordinate = n: nat | n < 0xFFFF

  datatype Cursor = Cursor(row: coordinate, column: coordinate)

  type Emulator = seq<u8> -> Cursor

  datatype Palette = Palette(foreground: (u16, u16, u16), background: (u16, u16, u16))

  datatype Reply = ColorReply(text: seq<u8>) | ControlReply(text: seq<u8>)

  datatype Terminal = Terminal(
    received: seq<u8>, keyboard: C.KeyboardModes, style: C.CursorStyle, alternateScroll: bool)

  // ---------------------------------------------------------------------------------------------
  // Answers
  // ---------------------------------------------------------------------------------------------

  function Digits(n: nat): seq<u8> {
    if n < 10 then [0x30 + n] else Digits(n / 10) + [0x30 + n % 10]
  }

  function HexDigit(n: nat): u8
    requires n < 16
  {
    if n < 10 then 0x30 + n else 0x57 + n
  }

  function Hex4(n: u16): seq<u8> {
    [HexDigit(n / 0x1000), HexDigit(n / 0x100 % 16), HexDigit(n / 0x10 % 16), HexDigit(n % 16)]
  }

  function QueryResponse(query: C.DeviceQuery, cursor: Cursor): seq<u8> {
    match query
    case Status => [C.ESC, C.BRACKET, 0x30, 0x6e]
    case CursorPosition =>
      [C.ESC, C.BRACKET] + Digits(cursor.row + 1) + [C.SEMICOLON] + Digits(cursor.column + 1) + [0x52]
    case ExtendedCursorPosition =>
      [C.ESC, C.BRACKET, C.QUESTION] + Digits(cursor.row + 1) + [C.SEMICOLON] + Digits(cursor.column + 1)
      + [C.SEMICOLON, 0x31, 0x52]
    case PrimaryAttributes => [C.ESC, C.BRACKET, C.QUESTION, 0x31, C.SEMICOLON, 0x32, 0x63]
  }

  function KeyboardResponse(flags: bv8): seq<u8> {
    [C.ESC, C.BRACKET, C.QUESTION] + Digits(flags as nat) + [0x75]
  }

  function PaletteResponse(palette: Palette, query: Q.ColorQuery): seq<u8> {
    var (slot, color) := if query == Q.Foreground then (0x30, palette.foreground) else (0x31, palette.background);
    [C.ESC, 0x5d, 0x31, slot, C.SEMICOLON, 0x72, 0x67, 0x62, 0x3a]
    + Hex4(color.0) + [0x2f] + Hex4(color.1) + [0x2f] + Hex4(color.2) + [C.ESC, 0x5c]
  }

  lemma {:induction false} DecimalAppend(n: nat, digits: seq<u8>, digit: u8)
    requires C.AllDigits(digits) && C.IsDigit(digit)
    ensures C.AllDigits(digits + [digit])
            && C.Decimal(n, digits + [digit]) == C.Decimal(n, digits) * 10 + (digit - 0x30)
    decreases |digits|
  {
    if |digits| == 0 {
      assert digits + [digit] == [digit] && [digit][1..] == [];
      assert C.Decimal(n, [digit]) == C.Decimal(n * 10 + (digit - 0x30), []);
    } else {
      assert (digits + [digit])[1..] == digits[1..] + [digit];
      DecimalAppend(n * 10 + (digits[0] - 0x30), digits[1..], digit);
    }
  }

  /** A number written in an answer reads back as itself. */
  lemma {:induction false} DigitsReadBack(n: nat)
    ensures C.AllDigits(Digits(n)) && C.Decimal(0, Digits(n)) == n
  {
    if n < 10 {
      assert Digits(n)[1..] == [];
      assert C.Decimal(0, Digits(n)) == C.Decimal(n, []);
    } else {
      DigitsReadBack(n / 10);
      DecimalAppend(0, Digits(n / 10), 0x30 + n % 10);
    }
  }

  /** The keyboard answer, read by a scanner in whatever state, carries the flags of the keyboard. */
  lemma KeyboardAnswerCarriesFlags(scan: C.Scan, flags: bv8)
    ensures KeyboardResponse(flags) == C.SequenceBytes(Some(C.QUESTION), Digits(flags as nat), None) + [0x75]
    ensures C.ScanAll(scan, C.SequenceBytes(Some(C.QUESTION), Digits(flags as nat), None)) ==
            C.Csi(Some(C.QUESTION), flags as nat, None)
  {
    var digits := Digits(flags as nat);
    DigitsReadBack(flags as nat);
    C.SequenceMeansItsParameters(scan, Some(C.QUESTION), digits, None);
    assert [C.ESC, C.BRACKET, C.QUESTION] + digits + [] == [C.ESC, C.BRACKET, C.QUESTION] + digits;
  }

  /** A row or column, counted from one, fits the scanner's parameters. */
  lemma CoordinateFits(n: coordinate)
    ensures C.Fits(Digits(n + 1)) && C.Decimal(0, Digits(n + 1)) == n + 1
  {
    DigitsReadBack(n + 1);
  }

  /** The cursor's answers, read by a scanner in whatever state, carry its row and then its column, counted from one. */
  lemma CursorAnswerCarriesPosition(scan: C.Scan, cursor: Cursor)
    ensures var row, column := Digits(cursor.row + 1), Digits(cursor.column + 1);
            && QueryResponse(C.CursorPosition, cursor) == C.SequenceBytes(None, row, Some(column)) + [0x52]
            && C.ScanAll(scan, C.SequenceBytes(None, row, Some(column))) ==
               C.Csi(None, cursor.row + 1, Some(cursor.column + 1))
            && QueryResponse(C.ExtendedCursorPosition, cursor) ==
               C.SequenceBytes(Some(C.QUESTION), row, Some(column)) + [C.SEMICOLON, 0x31, 0x52]
            && C.ScanAll(scan, C.SequenceBytes(Some(C.QUESTION), row, Some(column))) ==
               C.Csi(Some(C.QUESTION), cursor.row + 1, Some(cursor.column + 1))
  {
    var row, column := Digits(cursor.row + 1), Digits(cursor.column + 1);
    CoordinateFits(cursor.row);
    CoordinateFits(cursor.column);
    C.SequenceMeansItsParameters(scan, None, row, Some(column));
    C.SequenceMeansItsParameters(scan, Some(C.QUESTION), row, Some(column));
    TwoParameters([C.ESC, C.BRACKET], row, column, [0x52]);
    TwoParameters([C.ESC, C.BRACKET, C.QUESTION], row, column, [C.SEMICOLON, 0x31, 0x52]);
  }

  lemma TwoParameters(start: seq<u8>, row: seq<u8>, column: seq<u8>, end: seq<u8>)
    ensures start + row + [C.SEMICOLON] + column + end == start + row + ([C.SEMICOLON] + column) + end
  {
  }

  /** What a hexadecimal digit in lower case stands for. */
  function HexMeans(digit: u8): nat {
    if 0x30 <= digit <= 0x39 then digit - 0x30 else if 0x61 <= digit <= 0x66 then digit - 0x61 + 10 else 16
  }

  function Hex4Means(digits: seq<u8>): nat
    requires |digits| == 4
  {
    HexMeans(digits[0]) * 0x1000 + HexMeans(digits[1]) * 0x100 + HexMeans(digits[2]) * 0x10 + HexMeans(digits[3])
  }

  lemma HexDigitMeans(n: nat)
    requires n < 16
    ensures HexMeans(HexDigit(n)) == n
  {
  }

  lemma FourDigits(n: u16)
    ensures n == n / 0x1000 * 0x1000 + n / 0x100 % 16 * 0x100 + n / 0x10 % 16 * 0x10 + n % 16
  {
    LowDigit(n, 1);
    LowDigit(n / 0x10, 0x10);
    LowDigit(n / 0x100, 0x100);
    assert n / 0x10 / 16 == n / 0x100 && n / 0x100 / 16 == n / 0x1000;
  }

  lemma LowDigit(n: nat, weight: nat)
    ensures n * weight == n / 16 * (16 * weight) + n % 16 * weight
  {
    assert n == n / 16 * 16 + n % 16;
    assert n * weight == (n / 16 * 16 + n % 16) * weight == n / 16 * 16 * weight + n % 16 * weight;
    assert n / 16 * 16 * weight == n / 16 * (16 * weight);
  }

  lemma HexReadsBack(n: u16)
    ensures Hex4Means(Hex4(n)) == n
  {
    HexDigitMeans(n / 0x1000);
    HexDigitMeans(n / 0x100 % 16);
    HexDigitMeans(n / 0x10 % 16);
    HexDigitMeans(n % 16);
    FourDigits(n);
  }

  /** The answer about a colour names the one asked for and carries its red, green and blue, in this order. */
  lemma ColorAnswerCarriesColor(palette: Palette, query: Q.ColorQuery)
    ensures var text := PaletteResponse(palette, query);
            var color := if query == Q.Foreground then palette.foreground else palette.background;
            && |text| == 25 && text[..4] == [C.ESC, 0x5d, 0x31, if query == Q.Foreground then 0x30 else 0x31]
            && Hex4Means(text[9..13]) == color.0 && Hex4Means(text[14..18]) == color.1
            && Hex4Means(text[19..23]) == color.2
  {
    var text := PaletteResponse(palette, query);
    var color := if query == Q.Foreground then palette.foreground else palette.background;
    assert text[9..13] == Hex4(color.0) && text[14..18] == Hex4(color.1) && text[19..23] == Hex4(color.2);
    HexReadsBack(color.0);
    HexReadsBack(color.1);
    HexReadsBack(color.2);
  }

  // ---------------------------------------------------------------------------------------------
  // One byte at a time
  // ---------------------------------------------------------------------------------------------

  function Give(t: Terminal, bytes: seq<u8>): Terminal {
    t.(received := t.received + bytes)
  }

  /** What recognizing a sequence does, with the emulator as of the sequence's last byte. */
  function Act(t: Terminal, item: C.Recognized, emulator: Emulator): (Terminal, seq<Reply>) {
    match item
    case Styled(style) => (t.(style := style), [])
    case Query(query) => (t, [ControlReply(QueryResponse(query, emulator(t.received)))])
    case KeyboardQuery => (t, [ControlReply(KeyboardResponse(t.keyboard.flags))])
    case Keyboard(change) => (t.(keyboard := C.Changed(t.keyboard, change)), [])
    case AlternateScroll(enabled) => (t.(alternateScroll := enabled), [])
  }

  /** The reference: bytes are handed over one by one, each sequence acted on the moment it is complete. */
  function Hear(t: Terminal, scan: C.Scan, bytes: seq<u8>, emulator: Emulator): (Terminal, seq<Reply>)
    decreases |bytes|
  {
    if |bytes| == 0 then (t, [])
    else
      var (next, item) := C.Step(scan, bytes[0]);
      var given := Give(t, [bytes[0]]);
      var (acted, replies) := if item.Some? then Act(given, item.value, emulator) else (given, []);
      var (end, more) := Hear(acted, next, bytes[1..], emulator);
      (end, replies + more)
  }

  // ---------------------------------------------------------------------------------------------
  // One read at a time
  // ---------------------------------------------------------------------------------------------

  predicate InOrder(items: seq<(nat, C.Recognized)>, consumed: nat, length: nat)
    decreases |items|
  {
    if |items| == 0 then consumed <= length
    else consumed <= items[0].0 <= length && InOrder(items[1..], items[0].0, length)
  }

  /** The output cut at the recognized positions: a slice, an action, a slice, and so on, and what is left. */
  function Slices(t: Terminal, output: seq<u8>, consumed: nat, items: seq<(nat, C.Recognized)>, emulator: Emulator)
    : (Terminal, seq<Reply>)
    requires InOrder(items, consumed, |output|)
    decreases |items|
  {
    if |items| == 0 then (Give(t, output[consumed..]), [])
    else
      var (acted, replies) := Act(Give(t, output[consumed..items[0].0]), items[0].1, emulator);
      var (end, more) := Slices(acted, output, items[0].0, items[1..], emulator);
      (end, replies + more)
  }

  lemma {:induction false} RecognizedInOrder(scan: C.Scan, bytes: seq<u8>, consumed: nat, offset: nat)
    requires consumed <= offset
    ensures InOrder(C.Recognize(scan, bytes, offset), consumed, offset + |bytes|)
    decreases |bytes|
  {
    if |bytes| > 0 {
      var (next, item) := C.Step(scan, bytes[0]);
      var rest := C.Recognize(next, bytes[1..], offset + 1);
      if item.Some? {
        RecognizedInOrder(next, bytes[1..], offset + 1, offset + 1);
        assert ([(offset + 1, item.value)] + rest)[1..] == rest;
      } else {
        RecognizedInOrder(next, bytes[1..], consumed, offset + 1);
        assert [] + rest == rest;
      }
    }
  }

  lemma HeardByte(t: Terminal, scan: C.Scan, output: seq<u8>, offset: nat, emulator: Emulator)
    requires offset < |output|
    ensures var ((next, item), given) := (C.Step(scan, output[offset]), Give(t, [output[offset]]));
            var (acted, replies) := if item.Some? then Act(given, item.value, emulator) else (given, []);
            var (end, more) := Hear(acted, next, output[offset + 1..], emulator);
            Hear(t, scan, output[offset..], emulator) == (end, if item.Some? then replies + more else more)
  {
    assert output[offset..][1..] == output[offset + 1..];
    var ((next, item), given) := (C.Step(scan, output[offset]), Give(t, [output[offset]]));
    if item.None? {
      var more := Hear(given, next, output[offset + 1..], emulator).1;
      assert [] + more == more;
    }
  }

  lemma RecognizedByte(scan: C.Scan, output: seq<u8>, offset: nat)
    requires offset < |output|
    ensures var (next, item) := C.Step(scan, output[offset]);
            var rest := C.Recognize(next, output[offset + 1..], offset + 1);
            C.Recognize(scan, output[offset..], offset) ==
              if item.Some? then [(offset + 1, item.value)] + rest else rest
  {
    assert output[offset..][1..] == output[offset + 1..];
    var rest := C.Recognize(C.Step(scan, output[offset]).0, output[offset + 1..], offset + 1);
    assert [] + rest == rest;
  }

  lemma SlicesHead(
    t: Terminal, output: seq<u8>, consumed: nat, at: nat, item: C.Recognized, rest: seq<(nat, C.Recognized)>,
    emulator: Emulator)
    requires InOrder([(at, item)] + rest, consumed, |output|)
    ensures consumed <= at <= |output| && InOrder(rest, at, |output|)
    ensures var (acted, replies) := Act(Give(t, output[consumed..at]), item, emulator);
            var (end, more) := Slices(acted, output, at, rest, emulator);
            Slices(t, output, consumed, [(at, item)] + rest, emulator) == (end, replies + more)
  {
    assert ([(at, item)] + rest)[1..] == rest;
  }

  /** Slicing at the recognized positions does exactly what handing over byte by byte does. */
  lemma {:induction false} SlicesAreBytes(
    t: Terminal, scan: C.Scan, output: seq<u8>, consumed: nat, offset: nat, emulator: Emulator)
    requires consumed <= offset <= |output|
    requires InOrder(C.Recognize(scan, output[offset..], offset), consumed, |output|)
    ensures Slices(t, output, consumed, C.Recognize(scan, output[offset..], offset), emulator) ==
            Hear(Give(t, output[consumed..offset]), scan, output[offset..], emulator)
    decreases |output| - offset
  {
    if offset < |output| {
      var ((next, item), at) := (C.Step(scan, output[offset]), offset + 1);
      RecognizedByte(scan, output, offset);
      HeardByte(Give(t, output[consumed..offset]), scan, output, offset, emulator);
      GiveOneMore(t, output, consumed, offset);
      if item.Some? {
        var rest := C.Recognize(next, output[at..], at);
        SlicesHead(t, output, consumed, at, item.value, rest, emulator);
        var acted := Act(Give(t, output[consumed..at]), item.value, emulator).0;
        SlicesAreBytes(acted, next, output, at, at, emulator);
        assert acted.received + output[at..at] == acted.received;
      } else {
        SlicesAreBytes(t, next, output, consumed, at, emulator);
      }
    } else {
      assert output[offset..] == [];
      assert output[consumed..] == output[consumed..offset];
    }
  }

  lemma GiveOneMore(t: Terminal, output: seq<u8>, consumed: nat, offset: nat)
    requires consumed <= offset < |output|
    ensures Give(Give(t, output[consumed..offset]), [output[offset]]) == Give(t, output[consumed..offset + 1])
  {
    GiveTwice(t, output[consumed..offset], [output[offset]]);
    assert output[consumed..offset] + [output[offset]] == output[consumed..offset + 1];
  }

  /** Delivering what one read recognized is hearing its bytes one by one. */
  lemma ReadIsHeard(t: Terminal, scan: C.Scan, output: seq<u8>, emulator: Emulator)
    ensures InOrder(C.Recognize(scan, output, 0), 0, |output|)
    ensures Slices(t, output, 0, C.Recognize(scan, output, 0), emulator) == Hear(t, scan, output, emulator)
  {
    RecognizedInOrder(scan, output, 0, 0);
    assert output[0..] == output && t.received + output[0..0] == t.received;
    SlicesAreBytes(t, scan, output, 0, 0, emulator);
  }

  lemma GiveTwice(t: Terminal, a: seq<u8>, b: seq<u8>)
    ensures Give(Give(t, a), b) == Give(t, a + b)
  {
    assert t.received + a + b == t.received + (a + b);
  }

  // ---------------------------------------------------------------------------------------------
  // The reader
  // ---------------------------------------------------------------------------------------------

  function ColorReplies(palette: Option<Palette>, questions: seq<Q.ColorQuery>): seq<Reply> {
    if palette.None? then []
    else seq(|questions|, i requires 0 <= i < |questions| => ColorReply(PaletteResponse(palette.value, questions[i])))
  }

  datatype ReaderState = ReaderState(terminal: Terminal, scan: C.Scan, pending: seq<u8>, written: seq<Reply>)

  /** One read of output: the colour questions are answered first, then the controls. */
  function ReadOnce(s: ReaderState, output: seq<u8>, palette: Option<Palette>, emulator: Emulator): ReaderState {
    var (pending, questions) := Q.Fed(s.pending, output);
    var (terminal, replies) := Hear(s.terminal, s.scan, output, emulator);
    ReaderState(
      terminal, C.ScanAll(s.scan, output), pending, s.written + ColorReplies(palette, questions) + replies)
  }

  class OutputReader {
    const colors: Q.Detector
    const controls: C.Detector
    const keyboard: C.KeyboardState
    var received: seq<u8>
    var style: C.CursorStyle
    var alternateScroll: bool
    /** Everything written back to the agent. */
    var written: seq<Reply>

    ghost predicate Valid()
      reads this, keyboard
    {
      |keyboard.stack| <= C.MAX_DEPTH
    }

    function State(): ReaderState
      reads this, colors, controls, keyboard
    {
      ReaderState(
        Terminal(received, keyboard.State(), style, alternateScroll), controls.scan, colors.pending, written)
    }

    constructor ()
      ensures Valid() && fresh(colors) && fresh(controls) && fresh(keyboard)
      ensures State() == ReaderState(Terminal([], C.LEGACY, C.DefaultCursor, false), C.Idle, [], [])
    {
      colors := new Q.Detector();
      controls := new C.Detector();
      keyboard := new C.KeyboardState();
      received, style, alternateScroll, written := [], C.DefaultCursor, false, [];
    }

    method Read(output: seq<u8>, palette: Option<Palette>, emulator: Emulator)
      requires Valid()
      modifies this, colors, controls, keyboard
      ensures Valid()
      ensures State() == ReadOnce(old(State()), output, palette, emulator)
    {
      ghost var before := State();
      var questions := colors.Process(output);
      written := written + ColorReplies(palette, questions);
      var items := controls.Process(output);
      ReadIsHeard(before.terminal, before.scan, output, emulator);
      Deliver(output, items, emulator);
    }

    /** Hands the output to the emulator up to each recognized sequence, and acts on it before going on. */
    method Deliver(output: seq<u8>, items: seq<(nat, C.Recognized)>, emulator: Emulator)
      requires Valid() && InOrder(items, 0, |output|)
      modifies this, keyboard
      ensures Valid()
      ensures State().terminal == Slices(old(State()).terminal, output, 0, items, emulator).0
      ensures written == old(written) + Slices(old(State()).terminal, output, 0, items, emulator).1
    {
      var consumed := 0;
      ghost var all := Slices(State().terminal, output, 0, items, emulator);
      assert items[0..] == items;
      for i := 0 to |items|
        invariant Valid() && InOrder(items[i..], consumed, |output|)
        invariant Slices(State().terminal, output, consumed, items[i..], emulator).0 == all.0
        invariant written + Slices(State().terminal, output, consumed, items[i..], emulator).1 == old(written) + all.1
      {
        var (offset, item) := items[i];
        assert items[i..][0] == items[i] && items[i..][1..] == items[i + 1..];
        ghost var t := Give(State().terminal, output[consumed..offset]);
        ghost var replies := Act(t, item, emulator).1;
        Associative(
          written, replies, Slices(Act(t, item, emulator).0, output, offset, items[i + 1..], emulator).1);
        received := received + output[consumed..offset];
        consumed := offset;
        Perform(item, emulator);
      }
      assert written + [] == written;
      received := received + output[consumed..];
    }

    method Perform(item: C.Recognized, emulator: Emulator)
      requires Valid()
      modifies this`style, this`alternateScroll, this`written, keyboard
      ensures Valid()
      ensures State().terminal == Act(old(State()).terminal, item, emulator).0
      ensures written == old(written) + Act(old(State()).terminal, item, emulator).1
    {
      match item {
        case Styled(s) => style := s;
        case Query(query) =>
          written := written + [ControlReply(QueryResponse(query, emulator(received)))];
        case KeyboardQuery =>
          written := written + [ControlReply(KeyboardResponse(keyboard.flags))];
        case Keyboard(change) => keyboard.Apply(change);
        case AlternateScroll(enabled) => alternateScroll := enabled;
      }
    }
  }

  // ---------------------------------------------------------------------------------------------
  // Cutting the output into reads
  // ---------------------------------------------------------------------------------------------

  lemma {:induction false} HearConcat(t: Terminal, scan: C.Scan, a: seq<u8>, b: seq<u8>, emulator: Emulator)
    ensures var (mid, first) := Hear(t, scan, a, emulator);
            var (end, second) := Hear(mid, C.ScanAll(scan, a), b, emulator);
            Hear(t, scan, a + b, emulator) == (end, first + second)
    decreases |a|
  {
    if |a| == 0 {
      assert a + b == b;
      var heard := Hear(t, scan, b, emulator);
      assert [] + heard.1 == heard.1;
    } else {
      assert (a + b)[1..] == a[1..] + b;
      var (next, item) := C.Step(scan, a[0]);
      var given := Give(t, [a[0]]);
      var (acted, replies) := if item.Some? then Act(given, item.value, emulator) else (given, []);
      HearConcat(acted, next, a[1..], b, emulator);
      var (mid, first) := Hear(acted, next, a[1..], emulator);
      Associative(replies, first, Hear(mid, C.ScanAll(scan, a), b, emulator).1);
    }
  }

  /** Nothing is lost, repeated or reordered on the way to the emulator. */
  lemma {:induction false} HearGivesEverything(t: Terminal, scan: C.Scan, bytes: seq<u8>, emulator: Emulator)
    ensures Hear(t, scan, bytes, emulator).0.received == t.received + bytes
    decreases |bytes|
  {
    if |bytes| > 0 {
      var (next, item) := C.Step(scan, bytes[0]);
      var given := Give(t, [bytes[0]]);
      var acted := if item.Some? then Act(given, item.value, emulator).0 else given;
      HearGivesEverything(acted, next, bytes[1..], emulator);
      assert t.received + [bytes[0]] + bytes[1..] == t.received + bytes;
    }
  }

  function ReadAll(s: ReaderState, chunks: seq<seq<u8>>, palette: Option<Palette>, emulator: Emulator): ReaderState
    decreases |chunks|
  {
    if |chunks| == 0 then s else ReadAll(ReadOnce(s, chunks[0], palette, emulator), chunks[1..], palette, emulator)
  }

  function Only(replies: seq<Reply>, color: bool): seq<Reply> {
    if |replies| == 0 then []
    else (if replies[0].ColorReply? == color then [replies[0]] else []) + Only(replies[1..], color)
  }

  function ControlsOf(replies: seq<Reply>): seq<Reply> {
    Only(replies, false)
  }

  function ColorsOf(replies: seq<Reply>): seq<Reply> {
    Only(replies, true)
  }

  lemma {:induction false} RepliesConcat(a: seq<Reply>, b: seq<Reply>, color: bool)
    ensures Only(a + b, color) == Only(a, color) + Only(b, color)
  {
    if |a| == 0 {
      assert a + b == b;
    } else {
      assert (a + b)[1..] == a[1..] + b;
      RepliesConcat(a[1..], b, color);
      var head := if a[0].ColorReply? == color then [a[0]] else [];
      Associative(head, Only(a[1..], color), Only(b, color));
    }
  }

  lemma {:induction false} OneKindOnly(replies: seq<Reply>, color: bool)
    requires forall r | r in replies :: r.ColorReply? == color
    ensures Only(replies, color) == replies && Only(replies, !color) == []
  {
    if |replies| > 0 {
      OneKindOnly(replies[1..], color);
      assert replies == [replies[0]] + replies[1..];
    }
  }

  lemma {:induction false} HearWritesControls(t: Terminal, scan: C.Scan, bytes: seq<u8>, emulator: Emulator)
    ensures forall r | r in Hear(t, scan, bytes, emulator).1 :: r.ControlReply?
    decreases |bytes|
  {
    if |bytes| > 0 {
      var (next, item) := C.Step(scan, bytes[0]);
      var given := Give(t, [bytes[0]]);
      var acted := if item.Some? then Act(given, item.value, emulator).0 else given;
      HearWritesControls(acted, next, bytes[1..], emulator);
    }
  }

  lemma TwoKinds(written: seq<Reply>, colors: seq<Reply>, controls: seq<Reply>, color: bool)
    ensures Only(written + colors + controls, color) ==
            Only(written, color) + Only(colors, color) + Only(controls, color)
  {
    RepliesConcat(written + colors, controls, color);
    RepliesConcat(written, colors, color);
  }

  /** The two kinds of replies of one read. */
  lemma ReadReplies(s: ReaderState, output: seq<u8>, palette: Option<Palette>, emulator: Emulator)
    ensures var after := ReadOnce(s, output, palette, emulator).written;
            && ControlsOf(after) == ControlsOf(s.written) + Hear(s.terminal, s.scan, output, emulator).1
            && ColorsOf(after) == ColorsOf(s.written) + ColorReplies(palette, Q.Fed(s.pending, output).1)
  {
    var colors := ColorReplies(palette, Q.Fed(s.pending, output).1);
    var replies := Hear(s.terminal, s.scan, output, emulator).1;
    HearWritesControls(s.terminal, s.scan, output, emulator);
    OneKindOnly(colors, true);
    OneKindOnly(replies, false);
    TwoKinds(s.written, colors, replies, true);
    TwoKinds(s.written, colors, replies, false);
    assert ControlsOf(s.written) + [] == ControlsOf(s.written);
  }

  lemma ColorRepliesConcat(palette: Option<Palette>, a: seq<Q.ColorQuery>, b: seq<Q.ColorQuery>)
    ensures ColorReplies(palette, a + b) == ColorReplies(palette, a) + ColorReplies(palette, b)
  {
  }

  /**
   Main result: whatever the reads are, the emulator receives exactly the output, once and in order;
   the keyboard, the cursor style, the scroll mode and the control replies are those of the whole
   output heard byte by byte; and the colour replies answer exactly the questions in the whole output.
   */
  lemma {:induction false} ReadsDoNotMatter(
    s: ReaderState, chunks: seq<seq<u8>>, palette: Option<Palette>, emulator: Emulator)
    ensures var end, output := ReadAll(s, chunks, palette, emulator), Q.Joined(chunks);
            && end.terminal.received == s.terminal.received + output
            && end.terminal == Hear(s.terminal, s.scan, output, emulator).0
            && end.scan == C.ScanAll(s.scan, output)
            && ControlsOf(end.written) == ControlsOf(s.written) + Hear(s.terminal, s.scan, output, emulator).1
            && end.pending == Q.FedAll(s.pending, chunks).0
            && ColorsOf(end.written) == ColorsOf(s.written) + ColorReplies(palette, Q.FedAll(s.pending, chunks).1)
    decreases |chunks|
  {
    HearGivesEverything(s.terminal, s.scan, Q.Joined(chunks), emulator);
    if |chunks| == 0 {
      assert ColorsOf(s.written) + [] == ColorsOf(s.written) && ControlsOf(s.written) + [] == ControlsOf(s.written);
    } else {
      var next := ReadOnce(s, chunks[0], palette, emulator);
      var rest := Q.Joined(chunks[1..]);
      ReadReplies(s, chunks[0], palette, emulator);
      ReadsDoNotMatter(next, chunks[1..], palette, emulator);
      HearConcat(s.terminal, s.scan, chunks[0], rest, emulator);
      C.ScanAllConcat(s.scan, chunks[0], rest);
      Associative(
        ControlsOf(s.written), Hear(s.terminal, s.scan, chunks[0], emulator).1,
        Hear(next.terminal, next.scan, rest, emulator).1);
      var (kept, first) := Q.Fed(s.pending, chunks[0]);
      ColorRepliesConcat(palette, first, Q.FedAll(kept, chunks[1..]).1);
      Associative(
        ColorsOf(s.written), ColorReplies(palette, first), ColorReplies(palette, Q.FedAll(kept, chunks[1..]).1));
    }
  }

  const FRESH := ReaderState(Terminal([], C.LEGACY, C.DefaultCursor, false), C.Idle, [], [])

  /**
   From the start, two ways of cutting the same output differ in nothing but how the two kinds of replies
   interleave.
   */
  lemma SameOutputSameReader(a: seq<seq<u8>>, b: seq<seq<u8>>, palette: Option<Palette>, emulator: Emulator)
    requires Q.Joined(a) == Q.Joined(b)
    ensures var left, right := ReadAll(FRESH, a, palette, emulator), ReadAll(FRESH, b, palette, emulator);
            && left.terminal == right.terminal && left.scan == right.scan && left.pending == right.pending
            && ControlsOf(left.written) == ControlsOf(right.written)
            && ColorsOf(left.written) == ColorsOf(right.written)
  {
    ReadsDoNotMatter(FRESH, a, palette, emulator);
    ReadsDoNotMatter(FRESH, b, palette, emulator);
    Q.AnySplitReportsAll(a);
    Q.AnySplitReportsAll(b);
  }

  const STATUS_QUERY: seq<u8> := [0x1b, 0x5b, 0x35, 0x6e]
  const FOREGROUND_QUERY: seq<u8> := [0x1b, 0x5d, 0x31, 0x30, 0x3b, 0x3f, 0x07]

  lemma StatusIsAnswered(t: Terminal, emulator: Emulator)
    ensures Hear(t, C.Idle, STATUS_QUERY, emulator).1 == [ControlReply([C.ESC, C.BRACKET, 0x30, 0x6e])]
    ensures C.ScanAll(C.Idle, STATUS_QUERY) == C.Idle
  {
    var s1, s2, s3 := STATUS_QUERY[1..], STATUS_QUERY[1..][1..], STATUS_QUERY[1..][1..][1..];
    assert s3 == [0x6e] && s3[1..] == [];
    assert C.Accumulate(0, 5) == 5;
    var t1 := Give(t, [0x1b]);
    var t2 := Give(t1, [0x5b]);
    var t3 := Give(t2, [0x35]);
    var t4 := Give(t3, [0x6e]);
    assert Hear(t3, C.Csi(None, 5, None), s3, emulator).1 ==
      [ControlReply([C.ESC, C.BRACKET, 0x30, 0x6e])] + Hear(t4, C.Idle, [], emulator).1;
    assert Hear(t2, C.Csi(None, 0, None), s2, emulator).1 == [] + Hear(t3, C.Csi(None, 5, None), s3, emulator).1;
    assert Hear(t1, C.Escape, s1, emulator).1 == [] + Hear(t2, C.Csi(None, 0, None), s2, emulator).1;
    assert C.ScanAll(C.Idle, STATUS_QUERY) == C.ScanAll(C.Escape, s1) == C.ScanAll(C.Csi(None, 0, None), s2)
        == C.ScanAll(C.Csi(None, 5, None), s3) == C.ScanAll(C.Idle, []);
  }

  /** Without an escape byte nothing is recognized from an idle scanner. */
  lemma {:induction false} PlainTextIsSilent(t: Terminal, bytes: seq<u8>, emulator: Emulator)
    requires C.ESC !in bytes
    ensures Hear(t, C.Idle, bytes, emulator).1 == []
    decreases |bytes|
  {
    if |bytes| > 0 {
      PlainTextIsSilent(Give(t, [bytes[0]]), bytes[1..], emulator);
    }
  }

  lemma ForegroundIsNoControl(t: Terminal, emulator: Emulator)
    ensures Hear(t, C.Idle, FOREGROUND_QUERY, emulator).1 == []
  {
    var rest := FOREGROUND_QUERY[1..];
    var t1 := Give(t, [0x1b]);
    PlainTextIsSilent(Give(t1, [0x5d]), rest[1..], emulator);
    assert Hear(t1, C.Escape, rest, emulator).1 == [] + Hear(Give(t1, [0x5d]), C.Idle, rest[1..], emulator).1;
  }

  lemma ForegroundIsAsked()
    ensures Q.Questions(STATUS_QUERY) == [] && Q.Carry(STATUS_QUERY) == STATUS_QUERY
    ensures Q.Questions(STATUS_QUERY + FOREGROUND_QUERY) == [Q.Foreground]
  {
    var all := STATUS_QUERY + FOREGROUND_QUERY;
    forall i | 0 <= i <= |STATUS_QUERY|
      ensures Q.Here(STATUS_QUERY[i..]).None?
    {
    }
    Q.NothingAnywhere(STATUS_QUERY);
    assert all[4..] == FOREGROUND_QUERY && all[11..] == [];
    Q.OnlyOneHere(FOREGROUND_QUERY, 2);
    forall i | 0 <= i < 4
      ensures Q.Here(all[i..]).None?
    {
      assert all[i..][0] == all[i] && all[i..][1] == all[i + 1];
    }
    Q.DrainKeepsTheRest(all, 4, 2);
  }

  /** One read that asks `questions` and is given `replies`. */
  lemma OneRead(
    s: ReaderState, output: seq<u8>, palette: Palette, emulator: Emulator, questions: seq<Q.ColorQuery>,
    replies: seq<Reply>)
    requires Q.Questions(s.pending + output) == questions && |questions| <= 1
    requires Hear(s.terminal, s.scan, output, emulator).1 == replies
    ensures ReadOnce(s, output, Some(palette), emulator).written ==
            s.written + (if questions == [] then [] else [ColorReply(PaletteResponse(palette, questions[0]))]) + replies
  {
    var colors := ColorReplies(Some(palette), questions);
    assert colors == if questions == [] then [] else [ColorReply(PaletteResponse(palette, questions[0]))];
  }

  lemma ReadAllOfOneOrTwo(s: ReaderState, a: seq<u8>, b: seq<u8>, palette: Option<Palette>, emulator: Emulator)
    ensures ReadAll(s, [a], palette, emulator) == ReadOnce(s, a, palette, emulator)
    ensures ReadAll(s, [a, b], palette, emulator) == ReadOnce(ReadOnce(s, a, palette, emulator), b, palette, emulator)
  {
    var first := ReadOnce(s, a, palette, emulator);
    assert [a][1..] == [] && [a, b][1..] == [b] && [b][1..] == [];
    assert ReadAll(first, [], palette, emulator) == first;
    assert ReadAll(first, [b], palette, emulator) ==
      ReadAll(ReadOnce(first, b, palette, emulator), [], palette, emulator);
  }

  /** Two pieces of output: the first asks for a status, the second for a colour. */
  lemma OneReadOrTwo(a: seq<u8>, b: seq<u8>, query: Q.ColorQuery, status: Reply, palette: Palette, emulator: Emulator)
    requires Q.Questions(a) == [] && Q.Carry(a) == a && Q.Questions(a + b) == [query]
    requires Hear(FRESH.terminal, C.Idle, a, emulator).1 == [status] && C.ScanAll(C.Idle, a) == C.Idle
    requires Hear(Hear(FRESH.terminal, C.Idle, a, emulator).0, C.Idle, b, emulator).1 == []
    ensures var color := ColorReply(PaletteResponse(palette, query));
            && ReadAll(FRESH, [a + b], Some(palette), emulator).written == [color, status]
            && ReadAll(FRESH, [a, b], Some(palette), emulator).written == [status, color]
  {
    var color := ColorReply(PaletteResponse(palette, query));
    HearConcat(FRESH.terminal, C.Idle, a, b, emulator);
    assert [] + (a + b) == a + b && [] + a == a && [status] + [] == [status];
    ReadAllOfOneOrTwo(FRESH, a + b, [], Some(palette), emulator);
    OneRead(FRESH, a + b, palette, emulator, [query], [status]);
    var first := ReadOnce(FRESH, a, Some(palette), emulator);
    ReadAllOfOneOrTwo(FRESH, a, b, Some(palette), emulator);
    OneRead(FRESH, a, palette, emulator, [], [status]);
    OneRead(first, b, palette, emulator, [query], []);
  }

  /**
   The order of the two kinds does depend on the reads: in one read the colour is answered before an earlier
   query.
   */
  lemma ReadsDecideInterleaving(palette: Palette, emulator: Emulator)
    ensures var color, status :=
            ColorReply(PaletteResponse(palette, Q.Foreground)), ControlReply([C.ESC, C.BRACKET, 0x30, 0x6e]);
            && ReadAll(FRESH, [STATUS_QUERY + FOREGROUND_QUERY], Some(palette), emulator).written == [color, status]
            && ReadAll(FRESH, [STATUS_QUERY, FOREGROUND_QUERY], Some(palette), emulator).written == [status, color]
  {
    ForegroundIsAsked();
    StatusIsAnswered(FRESH.terminal, emulator);
    ForegroundIsNoControl(Hear(FRESH.terminal, C.Idle, STATUS_QUERY, emulator).0, emulator);
    OneReadOrTwo(
      STATUS_QUERY, FOREGROUND_QUERY, Q.Foreground, ControlReply([C.ESC, C.BRACKET, 0x30, 0x6e]), palette, emulator);
  }

  // ---------------------------------------------------------------------------------------------
  // What one sequence does
  // ---------------------------------------------------------------------------------------------

  /** If one sequence is all there is to recognize, at the end of the output, it is acted on with all of it given. */
  lemma OneSequenceIsHeard(t: Terminal, scan: C.Scan, output: seq<u8>, item: C.Recognized, emulator: Emulator)
    requires C.Recognize(scan, output, 0) == [(|output|, item)]
    ensures var ((end, replies), acted) := (Hear(t, scan, output, emulator), Act(Give(t, output), item, emulator));
            end == acted.0 && replies == acted.1
  {
    assert output[0..] == output && output[0..|output|] == output && output[|output|..] == [];
    var items := C.Recognize(scan, output, 0);
    RecognizedInOrder(scan, output, 0, 0);
    SlicesAreBytes(t, scan, output, 0, 0, emulator);
    assert Give(t, output[0..0]) == t by {
      assert t.received + [] == t.received;
    }
    SlicesHead(t, output, 0, |output|, item, [], emulator);
    assert [(|output|, item)] + [] == items;
    var (acted, replies) := Act(Give(t, output), item, emulator);
    assert Give(acted, []) == acted by {
      assert acted.received + [] == acted.received;
    }
    assert replies + [] == replies;
  }

  /** Questions are answered once: about the terminal, its cursor as of then, and the keyboard's flags as of then. */
  lemma QuestionsAreAnswered(t: Terminal, scan: C.Scan, emulator: Emulator)
    ensures var output := C.SequenceBytes(None, [0x36], None) + [0x6e];
            Hear(t, scan, output, emulator).1 ==
            [ControlReply(QueryResponse(C.CursorPosition, emulator(t.received + output)))]
    ensures var output := C.SequenceBytes(Some(C.QUESTION), [], None) + [0x75];
            Hear(t, scan, output, emulator).1 == [ControlReply(KeyboardResponse(t.keyboard.flags))]
  {
    var cursor := C.SequenceBytes(None, [0x36], None) + [0x6e];
    var keyboard := C.SequenceBytes(Some(C.QUESTION), [], None) + [0x75];
    assert [0x36][1..] == [] && C.Decimal(0, [0x36]) == C.Decimal(6, []) == 6;
    C.PlainQueriesAreReported(scan, [0x36]);
    C.PrivateQuestionsAreReported(scan, []);
    OneSequenceIsHeard(t, scan, cursor, C.Query(C.CursorPosition), emulator);
    OneSequenceIsHeard(t, scan, keyboard, C.KeyboardQuery, emulator);
  }

  /** The scroll mode and the cursor's style are what the last sequence about them says. */
  lemma SettingsAreHeard(t: Terminal, scan: C.Scan, digits: seq<u8>, on: bool, emulator: Emulator)
    requires C.Fits(digits)
    ensures C.Decimal(0, digits) == 1007 ==>
              var output := C.SequenceBytes(Some(C.QUESTION), digits, None) + [if on then 0x68 else 0x6c];
              Hear(t, scan, output, emulator).0.alternateScroll == on
    ensures var output := C.SequenceBytes(None, digits, None) + [0x20, 0x71];
            (C.Decimal(0, digits) == 4 ==> Hear(t, scan, output, emulator).0.style == C.SteadyUnderline)
            && (C.Decimal(0, digits) == 5 ==> Hear(t, scan, output, emulator).0.style == C.BlinkingBar)
  {
    var style := C.SequenceBytes(None, digits, None) + [0x20, 0x71];
    if C.Decimal(0, digits) == 1007 {
      ScrollIsHeard(t, scan, digits, on, emulator);
    }
    C.CursorStyleIsReported(scan, digits);
    assert |style| == |digits| + 4;
    OneSequenceIsHeard(t, scan, style, C.Recognize(scan, style, 0)[0].1, emulator);
  }

  lemma ScrollIsHeard(t: Terminal, scan: C.Scan, digits: seq<u8>, on: bool, emulator: Emulator)
    requires C.Fits(digits) && C.Decimal(0, digits) == 1007
    ensures var output := C.SequenceBytes(Some(C.QUESTION), digits, None) + [if on then 0x68 else 0x6c];
            Hear(t, scan, output, emulator).0.alternateScroll == on
  {
    var output := C.SequenceBytes(Some(C.QUESTION), digits, None) + [if on then 0x68 else 0x6c];
    C.PrivateQuestionsAreReported(scan, digits);
    OneSequenceIsHeard(t, scan, output, C.AlternateScroll(on), emulator);
  }
}
