/**
 Keyboard modes as an agent's output spells them, byte by byte: entering a mode and leaving it again
 restores the keyboard, whatever is entered, changed and left in between.
 */
module KeyboardBytes {
  import opened Basics
  import opened Controls
  import R = Reader

  /** The changes of the keyboard among what was recognized, in order. */
  function KeyboardChanges(items: seq<(nat, Recognized)>): seq<KeyboardProtocol> {
    if |items| == 0 then []
    else (if items[0].1.Keyboard? then [items[0].1.change] else []) + KeyboardChanges(items[1..])
  }

  /** The keyboard after these bytes of output. */
  function Typed(k: KeyboardModes, scan: Scan, bytes: seq<u8>): KeyboardModes {
    ChangedAll(k, KeyboardChanges(Recognize(scan, bytes, 0)))
  }

  lemma {:induction false} ChangesConcat(a: seq<(nat, Recognized)>, b: seq<(nat, Recognized)>)
    ensures KeyboardChanges(a + b) == KeyboardChanges(a) + KeyboardChanges(b)
  {
    if |a| == 0 {
      assert a + b == b;
    } else {
      assert (a + b)[1..] == a[1..] + b;
      ChangesConcat(a[1..], b);
    }
  }

  /** Where the bytes are counted from makes no difference to what they change. */
  lemma {:induction false} OffsetDoesNotMatter(scan: Scan, bytes: seq<u8>, i: nat, j: nat)
    ensures KeyboardChanges(Recognize(scan, bytes, i)) == KeyboardChanges(Recognize(scan, bytes, j))
    decreases |bytes|
  {
    if |bytes| > 0 {
      var (next, item) := Step(scan, bytes[0]);
      OffsetDoesNotMatter(next, bytes[1..], i + 1, j + 1);
      HeadChanges(item, i + 1, Recognize(next, bytes[1..], i + 1));
      HeadChanges(item, j + 1, Recognize(next, bytes[1..], j + 1));
    }
  }

  lemma HeadChanges(item: Option<Recognized>, position: nat, rest: seq<(nat, Recognized)>)
    ensures KeyboardChanges((if item.Some? then [(position, item.value)] else []) + rest) ==
            (if item.Some? && item.value.Keyboard? then [item.value.change] else []) + KeyboardChanges(rest)
  {
    if item.Some? {
      assert ([(position, item.value)] + rest)[1..] == rest;
    } else {
      assert [] + rest == rest && [] + KeyboardChanges(rest) == KeyboardChanges(rest);
    }
  }

  lemma TypedConcat(k: KeyboardModes, scan: Scan, a: seq<u8>, b: seq<u8>)
    ensures Typed(k, scan, a + b) == Typed(Typed(k, scan, a), ScanAll(scan, a), b)
  {
    var left, right := Recognize(scan, a, 0), Recognize(ScanAll(scan, a), b, |a|);
    RecognizeConcat(scan, a, b, 0);
    ChangesConcat(left, right);
    OffsetDoesNotMatter(ScanAll(scan, a), b, |a|, 0);
    ChangedAllConcat(k, KeyboardChanges(left), KeyboardChanges(right));
  }

  lemma OneChange(k: KeyboardModes, position: nat, change: KeyboardProtocol)
    ensures ChangedAll(k, KeyboardChanges([(position, Keyboard(change))])) == Changed(k, change)
  {
    HeadChanges(Some(Keyboard(change)), position, []);
    assert [(position, Keyboard(change))] + [] == [(position, Keyboard(change))];
    assert KeyboardChanges([(position, Keyboard(change))]) == [change];
    ChangedAllSingle(k, change);
  }

  // ---------------------------------------------------------------------------------------------
  // Sequences
  // ---------------------------------------------------------------------------------------------

  /** `CSI > f u`. */
  function EnterBytes(flags: bv8): seq<u8> {
    SequenceBytes(Some(GREATER), R.Digits(flags as nat), None) + [0x75]
  }

  /** `CSI < u`. */
  function LeaveBytes(): seq<u8> {
    SequenceBytes(Some(LESS), [], None) + [0x75]
  }

  /** `CSI = f ; m u`. */
  function AdjustBytes(flags: bv8, mode: u8): seq<u8> {
    SequenceBytes(Some(EQUALS), R.Digits(flags as nat), Some(R.Digits(mode))) + [0x75]
  }

  lemma DigitsFit(n: u8)
    ensures Fits(R.Digits(n)) && Decimal(0, R.Digits(n)) == n
  {
    R.DigitsReadBack(n);
  }

  lemma FlagsReadBack(flags: bv8) returns (n: u8)
    ensures n == flags as nat && n as bv8 == flags
  {
    n := flags as nat;
  }

  lemma SmallStays(n: u8)
    ensures n % 0x100 == n
  {
  }

  /** The same for a number instead of flags. */
  lemma EnteringNumber(k: KeyboardModes, scan: Scan, n: u8, flags: bv8)
    requires n as bv8 == flags
    ensures var bytes := SequenceBytes(Some(GREATER), R.Digits(n), None) + [0x75];
            Typed(k, scan, bytes) == Changed(k, Push(flags))
  {
    DigitsFit(n);
    SmallStays(n);
    KeyboardModesAreReported(scan, R.Digits(n));
    OneChange(k, |SequenceBytes(Some(GREATER), R.Digits(n), None)| + 1, Push(flags));
  }

  lemma AdjustingNumber(k: KeyboardModes, scan: Scan, n: u8, flags: bv8, mode: u8)
    requires n as bv8 == flags && mode > 0
    ensures var bytes := SequenceBytes(Some(EQUALS), R.Digits(n), Some(R.Digits(mode))) + [0x75];
            Typed(k, scan, bytes) == Changed(k, Set(flags, mode))
  {
    DigitsFit(n);
    DigitsFit(mode);
    SmallStays(n);
    SmallStays(mode);
    KeyboardChangesAreReported(scan, R.Digits(n), R.Digits(mode));
    OneChange(k, |SequenceBytes(Some(EQUALS), R.Digits(n), Some(R.Digits(mode)))| + 1, Set(flags, mode));
  }

  /** From whatever state of the scanner: the mode is entered, and the keyboard's flags are those given. */
  lemma Entering(k: KeyboardModes, scan: Scan, flags: bv8)
    ensures Typed(k, scan, EnterBytes(flags)) == Changed(k, Push(flags))
    ensures Typed(k, scan, EnterBytes(flags)).flags == flags
  {
    var n := FlagsReadBack(flags);
    EnteringNumber(k, scan, n, flags);
  }

  lemma Leaving(k: KeyboardModes, scan: Scan)
    ensures Typed(k, scan, LeaveBytes()) == Changed(k, Pop(1))
  {
    assert Fits([]) && Decimal(0, []) == 0;
    KeyboardModesAreReported(scan, []);
    OneChange(k, |LeaveBytes()|, Pop(0));
  }

  lemma Adjusting(k: KeyboardModes, scan: Scan, flags: bv8, mode: u8)
    requires mode > 0
    ensures Typed(k, scan, AdjustBytes(flags, mode)) == Changed(k, Set(flags, mode))
  {
    var n := FlagsReadBack(flags);
    AdjustingNumber(k, scan, n, flags, mode);
  }

  // ---------------------------------------------------------------------------------------------
  // Sessions
  // ---------------------------------------------------------------------------------------------

  /** What a session within a mode is in bytes. */
  function SessionBytes(session: Session): seq<u8> {
    match session
    case Done => []
    case Enter(flags, inside, after) =>
      EnterBytes(flags) + (SessionBytes(inside) + (LeaveBytes() + SessionBytes(after)))
    case Adjust(flags, mode, after) => AdjustBytes(flags, mode) + SessionBytes(after)
  }

  /** A mode of 0 cannot be written down: it is read as 1. */
  predicate CanBeWritten(session: Session) {
    match session
    case Done => true
    case Enter(_, inside, after) => CanBeWritten(inside) && CanBeWritten(after)
    case Adjust(_, mode, after) => mode > 0 && CanBeWritten(after)
  }

  /** A session written down and recognized does to the keyboard what it does. */
  lemma {:induction false} WrittenIsMeant(k: KeyboardModes, scan: Scan, session: Session)
    requires CanBeWritten(session)
    ensures Typed(k, scan, SessionBytes(session)) == ChangedAll(k, ChangesOf(session))
    decreases session
  {
    match session {
      case Done =>
      case Enter(flags, inside, after) =>
        var enter, leave := EnterBytes(flags), LeaveBytes();
        var entered := Changed(k, Push(flags));
        var inner := ChangedAll(entered, ChangesOf(inside));
        var scan1 := ScanAll(scan, enter);
        var scan2 := ScanAll(scan1, SessionBytes(inside));
        TypedConcat(k, scan, enter, SessionBytes(inside) + (leave + SessionBytes(after)));
        TypedConcat(entered, scan1, SessionBytes(inside), leave + SessionBytes(after));
        TypedConcat(inner, scan2, leave, SessionBytes(after));
        Entering(k, scan, flags);
        WrittenIsMeant(entered, scan1, inside);
        Leaving(inner, scan2);
        WrittenIsMeant(Changed(inner, Pop(1)), ScanAll(scan2, leave), after);
        EnterChanges(k, flags, inside, after);
      case Adjust(flags, mode, after) =>
        TypedConcat(k, scan, AdjustBytes(flags, mode), SessionBytes(after));
        Adjusting(k, scan, flags, mode);
        WrittenIsMeant(Changed(k, Set(flags, mode)), ScanAll(scan, AdjustBytes(flags, mode)), after);
        ChangedAllConcat(k, [Set(flags, mode)], ChangesOf(after));
        ChangedAllSingle(k, Set(flags, mode));
    }
  }

  lemma EnterChanges(k: KeyboardModes, flags: bv8, inside: Session, after: Session)
    ensures ChangedAll(k, ChangesOf(Enter(flags, inside, after))) ==
            ChangedAll(Changed(ChangedAll(Changed(k, Push(flags)), ChangesOf(inside)), Pop(1)), ChangesOf(after))
  {
    var entered := Changed(k, Push(flags));
    var inner := ChangedAll(entered, ChangesOf(inside));
    ChangedAllConcat(k, [Push(flags)] + ChangesOf(inside) + [Pop(1)], ChangesOf(after));
    ChangedAllConcat(k, [Push(flags)] + ChangesOf(inside), [Pop(1)]);
    ChangedAllConcat(k, [Push(flags)], ChangesOf(inside));
    ChangedAllSingle(k, Push(flags));
    ChangedAllSingle(inner, Pop(1));
  }

  /**
   Main result: in an agent's output, wherever it comes, entering a keyboard mode leaves the keyboard with
   the mode's flags; and leaving it again, whatever session was written in between, gives the keyboard back
   as it was, while there is depth.
   */
  lemma EnteringRestores(k: KeyboardModes, scan: Scan, flags: bv8, inside: Session)
    requires CanBeWritten(inside) && |k.stack| + 1 + Depth(inside) <= MAX_DEPTH
    ensures Typed(k, scan, EnterBytes(flags)).flags == flags
    ensures Typed(k, scan, EnterBytes(flags) + (SessionBytes(inside) + LeaveBytes())) == k
  {
    var session := Enter(flags, inside, Done);
    assert LeaveBytes() + [] == LeaveBytes();
    Entering(k, scan, flags);
    WrittenIsMeant(k, scan, session);
    var restored := EnterRestores(k, flags, inside);
    EnterChanges(k, flags, inside, Done);
    ChangedAllConcat(k, [Push(flags)] + ChangesOf(inside), [Pop(1)]);
    assert ChangesOf(session) == [Push(flags)] + ChangesOf(inside) + [Pop(1)] + [];
    assert ChangesOf(session) == [Push(flags)] + ChangesOf(inside) + [Pop(1)];
  }

  /** The reader's keyboard is what its output makes of it, so all this holds of an agent's terminal. */
  lemma {:induction false} ReaderFollows(t: R.Terminal, scan: Scan, bytes: seq<u8>, emulator: R.Emulator)
    ensures R.Hear(t, scan, bytes, emulator).0.keyboard == Typed(t.keyboard, scan, bytes)
    decreases |bytes|
  {
    if |bytes| > 0 {
      var (next, item) := Step(scan, bytes[0]);
      var given := R.Give(t, [bytes[0]]);
      var acted := if item.Some? then R.Act(given, item.value, emulator).0 else given;
      ReaderFollows(acted, next, bytes[1..], emulator);
      HeadChanges(item, 1, Recognize(next, bytes[1..], 1));
      OffsetDoesNotMatter(next, bytes[1..], 1, 0);
      if item.Some? && item.value.Keyboard? {
        ChangedAllConcat(t.keyboard, [item.value.change], KeyboardChanges(Recognize(next, bytes[1..], 0)));
        ChangedAllSingle(t.keyboard, item.value.change);
      } else {
        assert [] + KeyboardChanges(Recognize(next, bytes[1..], 0)) == KeyboardChanges(Recognize(next, bytes[1..], 0));
      }
    }
  }

  /** Entering a mode in an agent's output and leaving it again gives its terminal's keyboard back. */
  lemma ReaderRestores(t: R.Terminal, scan: Scan, flags: bv8, inside: Session, emulator: R.Emulator)
    requires CanBeWritten(inside) && |t.keyboard.stack| + 1 + Depth(inside) <= MAX_DEPTH
    ensures R.Hear(t, scan, EnterBytes(flags), emulator).0.keyboard.flags == flags
    ensures var bytes := EnterBytes(flags) + (SessionBytes(inside) + LeaveBytes());
            R.Hear(t, scan, bytes, emulator).0.keyboard == t.keyboard
  {
    EnteringRestores(t.keyboard, scan, flags, inside);
    ReaderFollows(t, scan, EnterBytes(flags), emulator);
    ReaderFollows(t, scan, EnterBytes(flags) + (SessionBytes(inside) + LeaveBytes()), emulator);
  }
}
