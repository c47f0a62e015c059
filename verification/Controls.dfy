/**
 The control sequences an agent's output addresses to the terminal itself (section 5.4 of ECMA-48): a
 scanner stepped byte by byte, and the keyboard modes some of the sequences push and pop.
 */
module Controls {
  import opened Basics

  const ESC: u8 := 0x1b
  const BRACKET: u8 := 0x5b
  const QUESTION: u8 := 0x3f
  const GREATER: u8 := 0x3e
  const LESS: u8 := 0x3c
  const EQUALS: u8 := 0x3d
  const SEMICOLON: u8 := 0x3b

  datatype CursorStyle =
    | DefaultCursor | BlinkingBlock | SteadyBlock | BlinkingUnderline | SteadyUnderline | BlinkingBar | SteadyBar

  function StyleOf(parameter: u16): CursorStyle {
    match parameter
    case 1 => BlinkingBlock
    case 2 => SteadyBlock
    case 3 => BlinkingUnderline
    case 4 => SteadyUnderline
    case 5 => BlinkingBar
    case 6 => SteadyBar
    case _ => DefaultCursor
  }

  datatype DeviceQuery = Status | CursorPosition | ExtendedCursorPosition | PrimaryAttributes

  datatype KeyboardProtocol = Push(flags: bv8) | Pop(count: u16) | Set(flags: bv8, mode: u8)

  datatype Recognized =
    | Styled(style: CursorStyle)
    | Query(query: DeviceQuery)
    | KeyboardQuery
    | Keyboard(change: KeyboardProtocol)
    | AlternateScroll(enabled: bool)

  // ---------------------------------------------------------------------------------------------
  // The scanner
  // ---------------------------------------------------------------------------------------------

  datatype Scan =
    | Idle
    | Escape
    | Csi(prefix: Option<u8>, first: u16, second: Option<u16>)
    | Space(parameter: u16)

  /** `as u8`, which keeps the low bits. */
  function Low(n: u16): u8 {
    if n < 0x100 then n else n % 0x100
  }

  function Flags(n: u16): bv8 {
    Low(n) as bv8
  }

  predicate IsDigit(byte: u8) {
    0x30 <= byte <= 0x39
  }

  /** `saturating_mul(10) + digit` on 16 bits. The product saturates; the sum does not, it wraps. */
  function Accumulate(n: u16, digit: nat): u16
    requires digit < 10
  {
    var product := if n * 10 > 0xFFFF then 0xFFFF else n * 10;
    if product + digit > 0xFFFF then product + digit - 0x1_0000 else product + digit
  }

  function KeyboardChange(prefix: u8, first: u16, second: Option<u16>): Option<Recognized> {
    if prefix == GREATER then Some(Keyboard(Push(Flags(first))))
    else if prefix == LESS then Some(Keyboard(Pop(first)))
    else if prefix == EQUALS then
      Some(Keyboard(Set(Flags(first), if second.None? || second.value == 0 then 1 else Low(second.value))))
    else None
  }

  function StatusQuery(prefix: Option<u8>, first: u16): Option<Recognized> {
    if prefix.None? && first == 5 then Some(Query(Status))
    else if prefix.None? && first == 6 then Some(Query(CursorPosition))
    else if prefix == Some(QUESTION) && first == 6 then Some(Query(ExtendedCursorPosition))
    else None
  }

  /** What one more byte inside a sequence leads to, and what it completes. */
  function StepCsi(prefix: Option<u8>, first: u16, second: Option<u16>, byte: u8): (Scan, Option<Recognized>) {
    if prefix.None? && first == 0 && second.None? && byte in [QUESTION, GREATER, LESS, EQUALS] then
      (Csi(Some(byte), 0, None), None)
    else if IsDigit(byte) && second.Some? then (Csi(prefix, first, Some(Accumulate(second.value, byte - 0x30))), None)
    else if IsDigit(byte) then (Csi(prefix, Accumulate(first, byte - 0x30), None), None)
    else if second.None? && byte == SEMICOLON then (Csi(prefix, first, Some(0)), None)
    else if prefix.None? && second.None? && byte == 0x20 then (Space(first), None)
    else if second.None? && byte == 0x6e then (Idle, StatusQuery(prefix, first))
    else if prefix.None? && first == 0 && second.None? && byte == 0x63 then (Idle, Some(Query(PrimaryAttributes)))
    else if prefix == Some(QUESTION) && first == 0 && second.None? && byte == 0x75 then (Idle, Some(KeyboardQuery))
    else if prefix.Some? && byte == 0x75 then (Idle, KeyboardChange(prefix.value, first, second))
    else if prefix == Some(QUESTION) && first == 1007 && second.None? && (byte == 0x68 || byte == 0x6c) then
      (Idle, Some(AlternateScroll(byte == 0x68)))
    else (Idle, None)
  }

  function Step(scan: Scan, byte: u8): (Scan, Option<Recognized>) {
    if byte == ESC then (Escape, None)
    else
      match scan
      case Idle => (Idle, None)
      case Escape => (if byte == BRACKET then Csi(None, 0, None) else Idle, None)
      case Csi(prefix, first, second) => StepCsi(prefix, first, second, byte)
      case Space(parameter) => (Idle, if byte == 0x71 then Some(Styled(StyleOf(parameter))) else None)
  }

  function ScanAll(scan: Scan, bytes: seq<u8>): Scan
    decreases |bytes|
  {
    if |bytes| == 0 then scan else ScanAll(Step(scan, bytes[0]).0, bytes[1..])
  }

  /** Everything recognized in the bytes, each with the position just past it, counted from `offset`. */
  function Recognize(scan: Scan, bytes: seq<u8>, offset: nat): seq<(nat, Recognized)>
    decreases |bytes|
  {
    if |bytes| == 0 then []
    else
      var (next, item) := Step(scan, bytes[0]);
      (if item.Some? then [(offset + 1, item.value)] else []) + Recognize(next, bytes[1..], offset + 1)
  }

  class Detector {
    var scan: Scan

    constructor ()
      ensures scan == Idle
    {
      scan := Idle;
    }

    method Process(bytes: seq<u8>) returns (recognized: seq<(nat, Recognized)>)
      modifies this
      ensures scan == ScanAll(old(scan), bytes)
      ensures recognized == Recognize(old(scan), bytes, 0)
    {
      recognized := [];
      assert bytes[0..] == bytes;
      for offset := 0 to |bytes|
        invariant ScanAll(scan, bytes[offset..]) == ScanAll(old(scan), bytes)
        invariant recognized + Recognize(scan, bytes[offset..], offset) == Recognize(old(scan), bytes, 0)
      {
        assert bytes[offset..][1..] == bytes[offset + 1..];
        var (next, item) := Step(scan, bytes[offset]);
        ghost var here := if item.Some? then [(offset + 1, item.value)] else [];
        Associative(recognized, here, Recognize(next, bytes[offset + 1..], offset + 1));
        scan := next;
        if item.Some? {
          recognized := recognized + [(offset + 1, item.value)];
        } else {
          assert recognized + here == recognized;
        }
      }
      assert recognized + [] == recognized;
    }
  }

  lemma {:induction false} ScanAllConcat(scan: Scan, a: seq<u8>, b: seq<u8>)
    ensures ScanAll(scan, a + b) == ScanAll(ScanAll(scan, a), b)
    decreases |a|
  {
    if |a| == 0 {
      assert a + b == b;
    } else {
      assert (a + b)[1..] == a[1..] + b;
      ScanAllConcat(Step(scan, a[0]).0, a[1..], b);
    }
  }

  // ---------------------------------------------------------------------------------------------
  // Parameters
  // ---------------------------------------------------------------------------------------------

  predicate AllDigits(digits: seq<u8>) {
    forall i | 0 <= i < |digits| :: IsDigit(digits[i])
  }

  /** The number that decimal digits stand for, after a number already read. */
  function Decimal(n: nat, digits: seq<u8>): nat
    requires AllDigits(digits)
    decreases |digits|
  {
    if |digits| == 0 then n else Decimal(n * 10 + (digits[0] - 0x30), digits[1..])
  }

  lemma {:induction false} DecimalGrows(n: nat, digits: seq<u8>)
    requires AllDigits(digits)
    ensures Decimal(n, digits) >= n
    decreases |digits|
  {
    if |digits| > 0 {
      DecimalGrows(n * 10 + (digits[0] - 0x30), digits[1..]);
    }
  }

  /** The first parameter read is the number its digits stand for exactly when that number fits in 16 bits. */
  lemma {:induction false} FirstParameter(prefix: Option<u8>, n: u16, digits: seq<u8>) returns (read: u16)
    requires AllDigits(digits)
    ensures ScanAll(Csi(prefix, n, None), digits) == Csi(prefix, read, None)
    ensures read == Decimal(n, digits) <==> Decimal(n, digits) <= 0xFFFF
    decreases |digits|
  {
    if |digits| == 0 {
      read := n;
    } else {
      var digit := digits[0] - 0x30;
      read := FirstParameter(prefix, Accumulate(n, digit), digits[1..]);
      if n * 10 + digit > 0xFFFF {
        DecimalGrows(n * 10 + digit, digits[1..]);
      }
    }
  }

  lemma {:induction false} SecondParameter(prefix: Option<u8>, first: u16, n: u16, digits: seq<u8>) returns (read: u16)
    requires AllDigits(digits)
    ensures ScanAll(Csi(prefix, first, Some(n)), digits) == Csi(prefix, first, Some(read))
    ensures read == Decimal(n, digits) <==> Decimal(n, digits) <= 0xFFFF
    decreases |digits|
  {
    if |digits| == 0 {
      read := n;
    } else {
      var digit := digits[0] - 0x30;
      read := SecondParameter(prefix, first, Accumulate(n, digit), digits[1..]);
      if n * 10 + digit > 0xFFFF {
        DecimalGrows(n * 10 + digit, digits[1..]);
      }
    }
  }

  /** The least number that does not fit, 65536, is read as 0: the product 65530 fits and the sum wraps. */
  lemma TooLargeParameter()
    ensures AllDigits([0x36, 0x35, 0x35, 0x33, 0x36]) && Decimal(0, [0x36, 0x35, 0x35, 0x33, 0x36]) == 0x1_0000
    ensures ScanAll(Csi(None, 0, None), [0x36, 0x35, 0x35, 0x33, 0x36]) == Csi(None, 0, None)
  {
  }

  predicate IsPrefix(prefix: Option<u8>) {
    prefix.Some? ==> prefix.value in [QUESTION, GREATER, LESS, EQUALS]
  }

  /** `CSI` and a private prefix, if there is one. */
  function Opening(prefix: Option<u8>): seq<u8> {
    match prefix
    case None => [ESC, BRACKET]
    case Some(byte) => [ESC, BRACKET, byte]
  }

  /** An opening, and one or two parameters. */
  function SequenceBytes(prefix: Option<u8>, first: seq<u8>, second: Option<seq<u8>>): seq<u8> {
    Opening(prefix) + first + if second.Some? then [SEMICOLON] + second.value else []
  }

  /** What the scanner must have read after those bytes. */
  function SequenceScan(prefix: Option<u8>, first: seq<u8>, second: Option<seq<u8>>): Scan
    requires Fits(first) && (second.Some? ==> Fits(second.value))
  {
    Csi(prefix, Decimal(0, first), if second.Some? then Some(Decimal(0, second.value)) else None)
  }

  /** The digits of a number of 16 bits. */
  predicate Fits(digits: seq<u8>) {
    AllDigits(digits) && Decimal(0, digits) <= 0xFFFF
  }

  /**
   From whatever state, `CSI`, with or without a prefix, and decimal parameters bring the scanner to exactly
   those parameters, so a sequence means the same wherever it comes in the stream.
   */
  lemma SequenceMeansItsParameters(scan: Scan, prefix: Option<u8>, first: seq<u8>, second: Option<seq<u8>>)
    requires IsPrefix(prefix) && Fits(first) && (second.Some? ==> Fits(second.value))
    ensures ScanAll(scan, SequenceBytes(prefix, first, second)) == SequenceScan(prefix, first, second)
  {
    var start := Opening(prefix);
    OpeningIsSilent(scan, prefix, 0);
    ScanAllConcat(scan, start, first);
    var n := FirstParameter(prefix, 0, first);
    if second.Some? {
      ScanAllConcat(scan, start + first, [SEMICOLON] + second.value);
      assert ([SEMICOLON] + second.value)[1..] == second.value;
      var m := SecondParameter(prefix, n, 0, second.value);
    } else {
      assert start + first + [] == start + first;
    }
  }

  lemma {:induction false} RecognizeConcat(scan: Scan, a: seq<u8>, b: seq<u8>, offset: nat)
    ensures Recognize(scan, a + b, offset) == Recognize(scan, a, offset) + Recognize(ScanAll(scan, a), b, offset + |a|)
    decreases |a|
  {
    if |a| == 0 {
      assert a + b == b;
    } else {
      assert (a + b)[1..] == a[1..] + b;
      var (next, item) := Step(scan, a[0]);
      RecognizeConcat(next, a[1..], b, offset + 1);
      Associative(
        if item.Some? then [(offset + 1, item.value)] else [],
        Recognize(next, a[1..], offset + 1), Recognize(ScanAll(scan, a), b, offset + |a|));
    }
  }

  /** Parameters by themselves complete nothing. */
  lemma {:induction false} ParametersAreSilent(
    prefix: Option<u8>, first: u16, second: Option<u16>, bytes: seq<u8>, offset: nat)
    requires AllDigits(bytes)
    ensures Recognize(Csi(prefix, first, second), bytes, offset) == []
    decreases |bytes|
  {
    if |bytes| > 0 {
      var next := Step(Csi(prefix, first, second), bytes[0]).0;
      ParametersAreSilent(prefix, next.first, next.second, bytes[1..], offset + 1);
    }
  }

  lemma OpeningIsSilent(scan: Scan, prefix: Option<u8>, offset: nat)
    requires IsPrefix(prefix)
    ensures Recognize(scan, Opening(prefix), offset) == []
    ensures ScanAll(scan, Opening(prefix)) == Csi(prefix, 0, None)
  {
    var start := Opening(prefix);
    var rest := start[2..];
    assert start[1..][1..] == rest && start[1..][0] == BRACKET;
    assert ScanAll(scan, start) == ScanAll(Escape, start[1..]) == ScanAll(Csi(None, 0, None), rest);
    assert Recognize(Escape, start[1..], offset + 1) == [] + Recognize(Csi(None, 0, None), rest, offset + 2);
    if prefix.Some? {
      assert rest == [prefix.value] && rest[1..] == [];
      assert ScanAll(Csi(None, 0, None), rest) == ScanAll(Csi(prefix, 0, None), []);
      assert Recognize(Csi(None, 0, None), rest, offset + 2) == [] + Recognize(Csi(prefix, 0, None), [], offset + 3);
    }
  }

  lemma OneParameterIsSilent(scan: Scan, prefix: Option<u8>, first: seq<u8>, offset: nat) returns (n: u16)
    requires IsPrefix(prefix) && AllDigits(first)
    ensures Recognize(scan, Opening(prefix) + first, offset) == []
    ensures ScanAll(scan, Opening(prefix) + first) == Csi(prefix, n, None)
  {
    var start := Opening(prefix);
    OpeningIsSilent(scan, prefix, offset);
    ParametersAreSilent(prefix, 0, None, first, offset + |start|);
    RecognizeConcat(scan, start, first, offset);
    ScanAllConcat(scan, start, first);
    n := FirstParameter(prefix, 0, first);
  }

  lemma SecondIsSilent(prefix: Option<u8>, first: u16, second: seq<u8>, offset: nat)
    requires AllDigits(second)
    ensures Recognize(Csi(prefix, first, None), [SEMICOLON] + second, offset) == []
  {
    assert ([SEMICOLON] + second)[1..] == second;
    ParametersAreSilent(prefix, first, Some(0), second, offset + 1);
  }

  lemma SequenceIsSilent(scan: Scan, prefix: Option<u8>, first: seq<u8>, second: Option<seq<u8>>, offset: nat)
    requires IsPrefix(prefix) && AllDigits(first) && (second.Some? ==> AllDigits(second.value))
    ensures Recognize(scan, SequenceBytes(prefix, first, second), offset) == []
  {
    var start := Opening(prefix) + first;
    var n := OneParameterIsSilent(scan, prefix, first, offset);
    if second.Some? {
      SecondIsSilent(prefix, n, second.value, offset + |start|);
      RecognizeConcat(scan, start, [SEMICOLON] + second.value, offset);
    } else {
      assert start + [] == start;
    }
  }

  /**
   Wherever it comes, a control sequence is reported at most once, at its last byte, as what that byte means
   for its parameters.
   */
  lemma SequenceIsReportedOnce(scan: Scan, prefix: Option<u8>, first: seq<u8>, second: Option<seq<u8>>, last: u8)
    requires IsPrefix(prefix) && Fits(first) && (second.Some? ==> Fits(second.value))
    ensures var bytes, item := SequenceBytes(prefix, first, second), Step(SequenceScan(prefix, first, second), last).1;
            Recognize(scan, bytes + [last], 0) == if item.Some? then [(|bytes| + 1, item.value)] else []
  {
    var bytes := SequenceBytes(prefix, first, second);
    SequenceMeansItsParameters(scan, prefix, first, second);
    SequenceIsSilent(scan, prefix, first, second, 0);
    RecognizeConcat(scan, bytes, [last], 0);
    OneByte(ScanAll(scan, bytes), last, |bytes|);
  }

  lemma OneByte(scan: Scan, byte: u8, offset: nat)
    ensures ScanAll(scan, [byte]) == Step(scan, byte).0
    ensures var item := Step(scan, byte).1;
            Recognize(scan, [byte], offset) == if item.Some? then [(offset + 1, item.value)] else []
  {
    var (next, item) := Step(scan, byte);
    var reported := if item.Some? then [(offset + 1, item.value)] else [];
    assert [byte][1..] == [] && reported + [] == reported;
    assert Recognize(scan, [byte], offset) == reported + Recognize(next, [], offset + 1);
  }

  /** What the sequences without a prefix are reported as: two questions about the terminal and one about its kind. */
  lemma PlainQueriesAreReported(scan: Scan, first: seq<u8>)
    requires Fits(first)
    ensures Recognize(scan, SequenceBytes(None, first, None) + [0x6e], 0) ==
            (match Decimal(0, first)
             case 5 => [(|first| + 3, Query(Status))]
             case 6 => [(|first| + 3, Query(CursorPosition))]
             case _ => [])
    ensures Recognize(scan, SequenceBytes(None, first, None) + [0x63], 0) ==
            if Decimal(0, first) == 0 then [(|first| + 3, Query(PrimaryAttributes))] else []
  {
    SequenceIsReportedOnce(scan, None, first, None, 0x6e);
    SequenceIsReportedOnce(scan, None, first, None, 0x63);
    assert |SequenceBytes(None, first, None)| == |first| + 2;
  }

  /** `CSI`, a number, a space and `q` set the cursor's style, wherever they come. */
  lemma CursorStyleIsReported(scan: Scan, first: seq<u8>)
    requires Fits(first)
    ensures Recognize(scan, SequenceBytes(None, first, None) + [0x20, 0x71], 0) ==
            [(|first| + 4,
              Styled(match Decimal(0, first)
                     case 1 => BlinkingBlock
                     case 2 => SteadyBlock
                     case 3 => BlinkingUnderline
                     case 4 => SteadyUnderline
                     case 5 => BlinkingBar
                     case 6 => SteadyBar
                     case _ => DefaultCursor))]
  {
    StyleIsReported(scan, first);
  }

  lemma StyleIsReported(scan: Scan, first: seq<u8>)
    requires Fits(first)
    ensures Recognize(scan, SequenceBytes(None, first, None) + [0x20, 0x71], 0) ==
            [(|first| + 4, Styled(StyleOf(Decimal(0, first))))]
  {
    var bytes := SequenceBytes(None, first, None);
    SequenceIsReportedOnce(scan, None, first, None, 0x20);
    SpaceIsNext(scan, first);
    assert bytes + [0x20, 0x71] == (bytes + [0x20]) + [0x71];
    RecognizeConcat(scan, bytes + [0x20], [0x71], 0);
    OneByte(Space(Decimal(0, first)), 0x71, |first| + 3);
    assert |bytes + [0x20]| == |first| + 3;
  }

  lemma SpaceIsNext(scan: Scan, first: seq<u8>)
    requires Fits(first)
    ensures ScanAll(scan, SequenceBytes(None, first, None) + [0x20]) == Space(Decimal(0, first))
  {
    var bytes := SequenceBytes(None, first, None);
    SequenceMeansItsParameters(scan, None, first, None);
    ScanAllConcat(scan, bytes, [0x20]);
    OneByte(ScanAll(scan, bytes), 0x20, |bytes|);
  }

  /** What a sequence with a private prefix and this last byte is reported as, if it is. */
  predicate ReportedAs(
    scan: Scan, prefix: u8, first: seq<u8>, second: Option<seq<u8>>, last: u8, item: Option<Recognized>)
  {
    var bytes := SequenceBytes(Some(prefix), first, second) + [last];
    Recognize(scan, bytes, 0) == if item.Some? then [(|bytes|, item.value)] else []
  }

  /** The low eight bits. */
  lemma FlagsAreLow(n: u16)
    ensures Flags(n) == (n % 0x100) as bv8 && Low(n) == n % 0x100
  {
  }

  /** `CSI > f u` enters a keyboard mode with these flags, and `CSI < n u` leaves as many modes. */
  lemma KeyboardModesAreReported(scan: Scan, first: seq<u8>)
    requires Fits(first)
    ensures var flags := (Decimal(0, first) % 0x100) as bv8;
            ReportedAs(scan, GREATER, first, None, 0x75, Some(Keyboard(Push(flags))))
    ensures ReportedAs(scan, LESS, first, None, 0x75, Some(Keyboard(Pop(Decimal(0, first)))))
  {
    FlagsAreLow(Decimal(0, first));
    ModeIsReported(scan, GREATER, first);
    ModeIsReported(scan, LESS, first);
  }

  lemma ModeIsReported(scan: Scan, prefix: u8, first: seq<u8>)
    requires Fits(first) && prefix in [GREATER, LESS]
    ensures ReportedAs(scan, prefix, first, None, 0x75, KeyboardChange(prefix, Decimal(0, first), None))
  {
    SequenceIsReportedOnce(scan, Some(prefix), first, None, 0x75);
  }

  /** `CSI = f u` sets the flags of the mode one is in. */
  lemma KeyboardFlagsAreReported(scan: Scan, first: seq<u8>)
    requires Fits(first)
    ensures var flags := (Decimal(0, first) % 0x100) as bv8;
            ReportedAs(scan, EQUALS, first, None, 0x75, Some(Keyboard(Set(flags, 1))))
  {
    FlagsAreLow(Decimal(0, first));
    SequenceIsReportedOnce(scan, Some(EQUALS), first, None, 0x75);
  }

  lemma EqualsStep(first: u16, second: u16)
    ensures Step(Csi(Some(EQUALS), first, Some(second)), 0x75).1 ==
            Some(Keyboard(Set(Flags(first), if second == 0 then 1 else Low(second))))
  {
  }

  /** `CSI = f ; m u` changes them in the way of `m`, which 0 leaves at 1. */
  lemma KeyboardChangesAreReported(scan: Scan, first: seq<u8>, second: seq<u8>)
    requires Fits(first) && Fits(second)
    ensures var flags, mode := (Decimal(0, first) % 0x100) as bv8, Decimal(0, second);
            var change := Set(flags, if mode == 0 then 1 else mode % 0x100);
            ReportedAs(scan, EQUALS, first, Some(second), 0x75, Some(Keyboard(change)))
  {
    FlagsAreLow(Decimal(0, first));
    FlagsAreLow(Decimal(0, second));
    EqualsStep(Decimal(0, first), Decimal(0, second));
    SequenceIsReportedOnce(scan, Some(EQUALS), first, Some(second), 0x75);
  }

  /** `CSI ? u` asks about the keyboard, `CSI ? 6 n` about the cursor; `CSI ? 1007 h` and `l` set a scroll mode. */
  lemma PrivateQuestionsAreReported(scan: Scan, first: seq<u8>)
    requires Fits(first)
    ensures var n := Decimal(0, first);
            && ReportedAs(scan, QUESTION, first, None, 0x75, if n == 0 then Some(KeyboardQuery) else None)
            && ReportedAs(scan, QUESTION, first, None, 0x6e,
                          if n == 6 then Some(Query(ExtendedCursorPosition)) else None)
            && ReportedAs(scan, QUESTION, first, None, 0x68, if n == 1007 then Some(AlternateScroll(true)) else None)
            && ReportedAs(scan, QUESTION, first, None, 0x6c, if n == 1007 then Some(AlternateScroll(false)) else None)
  {
    KeyboardQuestionIsReported(scan, first);
    CursorQuestionIsReported(scan, first);
    ScrollModeIsReported(scan, first, true);
    ScrollModeIsReported(scan, first, false);
  }

  lemma KeyboardQuestionIsReported(scan: Scan, first: seq<u8>)
    requires Fits(first)
    ensures ReportedAs(scan, QUESTION, first, None, 0x75, if Decimal(0, first) == 0 then Some(KeyboardQuery) else None)
  {
    SequenceIsReportedOnce(scan, Some(QUESTION), first, None, 0x75);
  }

  lemma CursorQuestionIsReported(scan: Scan, first: seq<u8>)
    requires Fits(first)
    ensures ReportedAs(scan, QUESTION, first, None, 0x6e,
                       if Decimal(0, first) == 6 then Some(Query(ExtendedCursorPosition)) else None)
  {
    SequenceIsReportedOnce(scan, Some(QUESTION), first, None, 0x6e);
  }

  lemma ScrollModeIsReported(scan: Scan, first: seq<u8>, on: bool)
    requires Fits(first)
    ensures ReportedAs(scan, QUESTION, first, None, if on then 0x68 else 0x6c,
                       if Decimal(0, first) == 1007 then Some(AlternateScroll(on)) else None)
  {
    SequenceIsReportedOnce(scan, Some(QUESTION), first, None, if on then 0x68 else 0x6c);
  }

  // ---------------------------------------------------------------------------------------------
  // The keyboard
  // ---------------------------------------------------------------------------------------------

  const MAX_DEPTH: nat := 32

  datatype KeyboardModes = KeyboardModes(stack: seq<bv8>, flags: bv8)

  const LEGACY := KeyboardModes([], 0)

  /** Returns to the mode `count` levels back, or to the legacy mode when there are fewer. */
  function PopMany(k: KeyboardModes, count: nat): KeyboardModes {
    if count == 0 then k
    else if count > |k.stack| then LEGACY
    else KeyboardModes(k.stack[..|k.stack| - count], k.stack[|k.stack| - count])
  }

  /** Mode 1 sets, 2 adds and 3 clears; any other mode is not understood. */
  function Adjusted(current: bv8, flags: bv8, mode: u8): bv8 {
    match mode
    case 1 => flags
    case 2 => current | flags
    case 3 => current & !flags
    case _ => current
  }

  function Changed(k: KeyboardModes, change: KeyboardProtocol): KeyboardModes {
    match change
    case Push(flags) => KeyboardModes(if |k.stack| < MAX_DEPTH then k.stack + [k.flags] else k.stack, flags)
    case Pop(count) => PopMany(k, if count == 0 then 1 else count)
    case Set(flags, mode) => k.(flags := Adjusted(k.flags, flags, mode))
  }

  /**
   What the ways of changing flags mean, bit by bit: 1 gives exactly these flags, 2 raises them and 3 lowers
   them, leaving all others, and anything else changes nothing. No mode is entered or left.
   */
  lemma AdjustMeans(k: KeyboardModes, flags: bv8, mode: u8)
    ensures var next := Changed(k, Set(flags, mode));
            && next.stack == k.stack
            && (mode == 1 ==> next.flags == flags)
            && (mode == 2 ==> next.flags & flags == flags && next.flags & !flags == k.flags & !flags)
            && (mode == 3 ==> next.flags & flags == 0 && next.flags & !flags == k.flags & !flags)
            && (mode !in [1, 2, 3] ==> next == k)
  {
  }

  /** Leaving several modes at once is leaving them one after the other. */
  lemma PopsAddUp(k: KeyboardModes, a: u16, b: u16)
    requires a > 0 && b > 0 && a + b <= 0xFFFF
    ensures Changed(Changed(k, Pop(a)), Pop(b)) == Changed(k, Pop(a + b))
    ensures Changed(k, Pop(0)) == Changed(k, Pop(1))
  {
    if a + b <= |k.stack| {
      var rest := k.stack[..|k.stack| - a];
      assert rest[..|rest| - b] == k.stack[..|k.stack| - (a + b)];
    }
  }

  class KeyboardState {
    var stack: seq<bv8>
    var flags: bv8

    function State(): KeyboardModes
      reads this
    {
      KeyboardModes(stack, flags)
    }

    constructor ()
      ensures State() == LEGACY
    {
      stack, flags := [], 0;
    }

    method Apply(change: KeyboardProtocol)
      requires |stack| <= MAX_DEPTH
      modifies this
      ensures |stack| <= MAX_DEPTH
      ensures State() == Changed(old(State()), change)
    {
      match change {
        case Push(f) =>
          if |stack| < MAX_DEPTH {
            stack := stack + [flags];
          }
          flags := f;
        case Pop(count) =>
          PopLevels(if count == 0 then 1 else count);
        case Set(f, mode) =>
          flags := Adjusted(flags, f, mode);
      }
    }

    method PopLevels(times: nat)
      modifies this
      ensures State() == PopMany(old(State()), times)
    {
      for i := 0 to times
        invariant State() == PopMany(old(State()), i)
      {
        PopOneMore(old(State()), i);
        if |stack| > 0 {
          flags := stack[|stack| - 1];
          stack := stack[..|stack| - 1];
        } else {
          flags := 0;
        }
      }
    }
  }

  lemma PopOneMore(k: KeyboardModes, count: nat)
    ensures var popped := PopMany(k, count);
            PopMany(k, count + 1) ==
            if |popped.stack| > 0 then
              KeyboardModes(popped.stack[..|popped.stack| - 1], popped.stack[|popped.stack| - 1])
            else LEGACY
  {
    if 0 < count < |k.stack| {
      assert k.stack[..|k.stack| - count][..|k.stack| - count - 1] == k.stack[..|k.stack| - count - 1];
    }
  }

  /**
   What an agent may do with the keyboard while it is in a mode it entered: enter further ones, and change
   its own.
   */
  datatype Session =
    | Done
    | Enter(flags: bv8, inside: Session, after: Session)
    | Adjust(flags: bv8, mode: u8, after: Session)

  function ChangesOf(session: Session): seq<KeyboardProtocol> {
    match session
    case Done => []
    case Enter(flags, inside, after) => [Push(flags)] + ChangesOf(inside) + [Pop(1)] + ChangesOf(after)
    case Adjust(flags, mode, after) => [Set(flags, mode)] + ChangesOf(after)
  }

  function Depth(session: Session): nat {
    match session
    case Done => 0
    case Enter(_, inside, after) => if 1 + Depth(inside) > Depth(after) then 1 + Depth(inside) else Depth(after)
    case Adjust(_, _, after) => Depth(after)
  }

  function ChangedAll(k: KeyboardModes, changes: seq<KeyboardProtocol>): KeyboardModes
    decreases |changes|
  {
    if |changes| == 0 then k else ChangedAll(Changed(k, changes[0]), changes[1..])
  }

  lemma {:induction false} ChangedAllConcat(k: KeyboardModes, a: seq<KeyboardProtocol>, b: seq<KeyboardProtocol>)
    ensures ChangedAll(k, a + b) == ChangedAll(ChangedAll(k, a), b)
    decreases |a|
  {
    if |a| == 0 {
      assert a + b == b;
    } else {
      assert (a + b)[1..] == a[1..] + b;
      ChangedAllConcat(Changed(k, a[0]), a[1..], b);
    }
  }

  /** A session that stays within the depth limit leaves the stack as it found it. */
  lemma {:induction false} SessionKeepsStack(k: KeyboardModes, session: Session)
    requires |k.stack| + Depth(session) <= MAX_DEPTH
    ensures ChangedAll(k, ChangesOf(session)).stack == k.stack
    decreases session, 0
  {
    match session {
      case Done =>
      case Enter(flags, inside, after) =>
        var restored := EnterRestores(k, flags, inside);
        ChangedAllConcat(k, [Push(flags)] + ChangesOf(inside) + [Pop(1)], ChangesOf(after));
        SessionKeepsStack(restored, after);
      case Adjust(flags, mode, after) =>
        ChangedAllConcat(k, [Set(flags, mode)], ChangesOf(after));
        ChangedAllSingle(k, Set(flags, mode));
        SessionKeepsStack(Changed(k, Set(flags, mode)), after);
    }
  }

  lemma ChangedAllSingle(k: KeyboardModes, change: KeyboardProtocol)
    ensures ChangedAll(k, [change]) == Changed(k, change)
  {
    assert ChangedAll(Changed(k, change), []) == Changed(k, change);
  }

  /**
   Main result: leaving a mode restores the keyboard exactly, whatever was done inside it, while there is
   depth left.
   */
  lemma {:induction false} EnterRestores(k: KeyboardModes, flags: bv8, inside: Session)
    returns (restored: KeyboardModes)
    requires |k.stack| + 1 + Depth(inside) <= MAX_DEPTH
    ensures restored == ChangedAll(k, [Push(flags)] + ChangesOf(inside) + [Pop(1)])
    ensures restored == k
    decreases inside, 1
  {
    var entered := Changed(k, Push(flags));
    ChangedAllConcat(k, [Push(flags)] + ChangesOf(inside), [Pop(1)]);
    ChangedAllConcat(k, [Push(flags)], ChangesOf(inside));
    ChangedAllSingle(k, Push(flags));
    SessionKeepsStack(entered, inside);
    var left := ChangedAll(entered, ChangesOf(inside));
    ChangedAllSingle(left, Pop(1));
    restored := Changed(left, Pop(1));
    assert left.stack == k.stack + [k.flags];
  }

  /** At the limit it does not: a push and a pop restore the keyboard exactly when there was room for the push. */
  lemma PushPopRestores(k: KeyboardModes, flags: bv8)
    requires |k.stack| <= MAX_DEPTH
    ensures Changed(Changed(k, Push(flags)), Pop(1)) == k <==> |k.stack| < MAX_DEPTH
  {
    if |k.stack| == MAX_DEPTH {
      assert |Changed(Changed(k, Push(flags)), Pop(1)).stack| == MAX_DEPTH - 1;
    }
  }
}
