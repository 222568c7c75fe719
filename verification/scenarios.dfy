/** Client scenarios over an 80 x 24 console (the window term.c's Win32
    backend sets up), each proved from the contracts of Term.Terminal alone. */
module Scenarios {
  import opened Keys
  import opened Term

  /** Construct; put 'A' at (0, 0); read it back; destruct. */
  method PutThenGet() returns (c: char)
    ensures c == 'A'
  {
    var t := new Terminal(80, 24, []);
    t.Construct();
    t.Put(0, 0, 'A');
    assert t.status == t.PutStatus(1, 0, 0, 'A') == Running;
    assert t.screen[0, 0] == 'A';
    c := t.Get(0, 0);
    assert c == 'A' && t.status == Running && t.count == 1;
    t.Destruct();
  }

  /** "AB" from (78, 0) fits in row 0. */
  method PutsWithinRow() returns (a: char, b: char)
    ensures a == 'A' && b == 'B'
  {
    var t := new Terminal(80, 24, []);
    t.Construct();
    t.Puts(78, 0, "AB");
    a := t.Get(78, 0);
    b := t.Get(79, 0);
  }

  /** "AB" from (79, 0) continues at column 0 of row 1. */
  method PutsWrapsRow() returns (a: char, b: char)
    ensures a == 'A' && b == 'B'
  {
    var t := new Terminal(80, 24, []);
    t.Construct();
    t.Puts(79, 0, "AB");
    a := t.Get(79, 0);
    b := t.Get(0, 1);
  }

  /** A newline in the middle of the string: the process exits and not even
      the characters before it reach the screen. */
  method PutsAllOrNothing() returns (s: Status, first: char)
    ensures s == Exited(UnprintableAt('\n', 1, 0, 0)) && first == ' '
  {
    var t := new Terminal(80, 24, []);
    t.Construct();
    assert FirstUnprintable("A\nB") == 1;
    assert t.PutsStatus(1, 0, 0, "A\nB") == Exited(UnprintableAt('\n', 1, 0, 0));
    t.Puts(0, 0, "A\nB");
    s, first := t.status, t.screen[0, 0];
  }

  /** The room check is strict: term_puts cannot write the last cell. */
  method PutsLastCellHasNoRoom() returns (s: Status)
    ensures s == Exited(NoRoom(1, 79, 23))
  {
    var t := new Terminal(80, 24, []);
    t.Construct();
    t.Puts(79, 23, "A");
    s := t.status;
  }

  /** A second term_construct restores the terminal and exits. */
  method ConstructTwice() returns (s: Status, n: int)
    ensures s == Exited(AlreadyConstructed(1)) && n == 0
  {
    var t := new Terminal(80, 24, []);
    t.Construct();
    t.Construct();
    s, n := t.status, t.count;
  }

  /** term_put before term_construct: check_count exits, naming term_ymax. */
  method PutBeforeConstruct() returns (s: Status)
    ensures s == Exited(NoSession(TermYmax))
  {
    var t := new Terminal(80, 24, []);
    t.Put(0, 0, 'A');
    s := t.status;
  }

  /** term_put one column past the right edge, with the report intended. */
  method PutPastRightEdge() returns (s: Status, n: int)
    ensures s == Exited(XTooLarge(TermPut, 80, 80)) && n == 0
  {
    var t := new Terminal(80, 24, []);
    t.Construct();
    t.Put(80, 0, 'A');
    s, n := t.status, t.count;
  }

  /** check as written, on the same column: the report comes from
      term_xmax's own check_count. */
  method PastRightEdgeAsWritten() returns (s: Status)
    ensures s == Exited(NoSession(TermXmax))
  {
    var t := new Terminal(80, 24, []);
    t.Construct();
    t.CheckAsWritten(TermPut, 80, 0);
    s := t.status;
  }

  /** A key typed before term_construct is flushed with the rest of the
      console input, so the first term_key finds nothing and returns '\0'. */
  method NoKeyPending() returns (k: char)
    ensures k == '\0'
  {
    var t := new Terminal(80, 24, [InputEvent(KeyDown, 'z')]);
    t.Construct();
    k := t.Key();
  }

  /** term_key skips records that are not key presses. */
  method KeySkipsOtherEvents() returns (k: char, left: seq<InputEvent>)
    ensures k == 'x' && left == [InputEvent(KeyDown, 'w')]
  {
    var t := new Terminal(80, 24, []);
    t.Construct();
    t.Receive(InputEvent(Other, '\0'));
    t.Receive(InputEvent(KeyUp, 'y'));
    t.Receive(InputEvent(KeyDown, 'x'));
    t.Receive(InputEvent(KeyDown, 'w'));
    NextKeyTakesFirstKeyDown(t.pending, 2);
    k := t.Key();
    left := t.pending;
  }

  /** term_destruct discards the keys typed during the session, and a new
      session starts with no key pending. */
  method DestructDrainsInput() returns (left: seq<InputEvent>, k: char)
    ensures left == [] && k == '\0'
  {
    var t := new Terminal(80, 24, []);
    t.Construct();
    t.Receive(InputEvent(KeyDown, 'a'));
    t.Receive(InputEvent(KeyUp, 'a'));
    t.Receive(InputEvent(KeyDown, 'b'));
    DrainedEmptiesQueue(t.pending);
    t.Destruct();
    left := t.pending;
    t.Construct();
    k := t.Key();
  }

  /** A key press whose character is '\0' (an arrow key, say) ends the drain
      early and leaves the rest pending. */
  method NulKeyStopsDrain() returns (left: seq<InputEvent>)
    ensures left == [InputEvent(KeyDown, 'q')]
  {
    var t := new Terminal(80, 24, []);
    t.Construct();
    t.Receive(InputEvent(KeyDown, 'a'));
    t.Receive(InputEvent(KeyDown, '\0'));
    t.Receive(InputEvent(KeyDown, 'q'));
    DrainedStopsAtNulKey(t.pending, 1);
    t.Destruct();
    left := t.pending;
  }
}
