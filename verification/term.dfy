/** The session layer of term.c: the construct/destruct counter, the checks
    that guard every call, and the screen and input operations of the Win32
    backend, over an abstract W x H screen and console input queue. */
module Term {
  import opened Keys
  import opened Layout

  /** The operations named in term.c's diagnostics (the `name` argument of
      check_count and check). */
  datatype Op = TermConstruct | TermDestruct | TermXmax | TermYmax | TermPut | TermPuts | TermGet | TermKey

  /** Why the process exited with EXIT_FAILURE: one constructor per
      diagnostic term.c prints before exiting. */
  datatype Fatal =
    | AlreadyConstructed(times: int)                      // term_construct
    | NoSession(op: Op)                                   // check_count
    | XTooLarge(op: Op, x: nat, xmax: nat)                // check
    | YTooLarge(op: Op, y: nat, ymax: nat)                // check
    | Unprintable(x: nat, y: nat, c: char)                // term_put
    | NoRoom(len: nat, x: nat, y: nat)                    // term_puts
    | UnprintableAt(c: char, index: nat, x: nat, y: nat)  // term_puts

  /** The process either runs or has called exit(EXIT_FAILURE). */
  datatype Status = Running | Exited(reason: Fatal)

  /** isprint in the C locale (the program never calls setlocale): the
      characters 0x20 through 0x7E. */
  predicate Printable(c: char)
  {
    ' ' <= c <= '~'
  }

  /** Index of the first character isprint rejects, or |s| if there is none. */
  function FirstUnprintable(s: string): (k: nat)
    ensures k <= |s|
    ensures forall j :: 0 <= j < k ==> Printable(s[j])
    ensures k < |s| ==> !Printable(s[k])
  {
    if s == [] || !Printable(s[0]) then 0 else 1 + FirstUnprintable(s[1..])
  }

  /** The diagnostic check_count(op) exits with when the counter is not 1.
      With a positive counter it first calls term_destruct, whose own
      check_count fails at once and names term_destruct instead. */
  function SessionFault(op: Op, n: int): (r: Fatal)
  {
    NoSession(if n > 0 && op != TermDestruct then TermDestruct else op)
  }

  /** Outcome of term_construct for a given counter value. */
  function ConstructStatus(n: int): (r: Status)
  {
    if n == 0 then Running
    else if n > 1 then Exited(NoSession(TermDestruct))
    else Exited(AlreadyConstructed(n))
  }

  class Terminal {
    /** term_xmax() and term_ymax(): the screen size the backend reports. */
    const W: nat
    const H: nat
    /** The console screen buffer; screen[x, y] is column x of row y. */
    const screen: array2<char>
    /** Number of calls to term_construct minus number of calls to
        term_destruct (term.c:41). */
    var count: int
    /** The console input buffer, oldest record first. */
    var pending: seq<InputEvent>
    var status: Status

    ghost predicate Valid()
    {
      1 <= W && 1 <= H && screen.Length0 == W && screen.Length1 == H
    }

    /** What every fatal path leaves behind, starting from counter `n` and
        input `q`: term_destruct ran to completion when the counter was 1
        (input drained, counter 0); otherwise it failed at its own check or
        was not called, and nothing changed. */
    ghost predicate Restored(n: int, q: seq<InputEvent>)
      reads this
    {
      if n == 1 then count == 0 && pending == Drained(q)
      else count == n && pending == q
    }

    /** Outcome of check(op, x, y), with the diagnostic the code evidently
        intends. */
    function CheckStatus(op: Op, x: nat, y: nat): (r: Status)
    {
      if x >= W then Exited(XTooLarge(op, x, W))
      else if y >= H then Exited(YTooLarge(op, y, H))
      else Running
    }

    /** Outcome of term_put. Its check_count call passes the name
        "term_ymax" (term.c:275). */
    function PutStatus(n: int, x: nat, y: nat, c: char): (r: Status)
    {
      if n != 1 then Exited(SessionFault(TermYmax, n))
      else if CheckStatus(TermPut, x, y).Exited? then CheckStatus(TermPut, x, y)
      else if !Printable(c) then Exited(Unprintable(x, y, c))
      else Running
    }

    /** Outcome of term_puts: the session, the start cell, the room left on
        the screen counted linearly, then every character. */
    function PutsStatus(n: int, x: nat, y: nat, s: string): (r: Status)
    {
      var k := FirstUnprintable(s);
      if n != 1 then Exited(SessionFault(TermPuts, n))
      else if CheckStatus(TermPuts, x, y).Exited? then CheckStatus(TermPuts, x, y)
      else if Offset(W, x, y) + |s| >= W * H then Exited(NoRoom(|s|, x, y))
      else if k < |s| then Exited(UnprintableAt(s[k], k, x, y))
      else Running
    }

    /** Outcome of term_get. */
    function GetStatus(n: int, x: nat, y: nat): (r: Status)
    {
      if n != 1 then Exited(SessionFault(TermGet, n)) else CheckStatus(TermGet, x, y)
    }

    /** Process start: no session yet, a blank screen of the backend's size
        and whatever input the console holds. */
    constructor (w: nat, h: nat, input: seq<InputEvent>)
      requires 1 <= w && 1 <= h
      ensures Valid() && W == w && H == h && fresh(screen)
      ensures forall i, j :: 0 <= i < w && 0 <= j < h ==> screen[i, j] == ' '
      ensures count == 0 && pending == input && status == Running
    {
      W, H := w, h;
      screen := new char[w, h]((_, _) => ' ');
      count, pending, status := 0, input, Running;
    }

    /** The console receives an input record (the user's keyboard or mouse);
        not part of term.c, it lets clients put input in the queue. */
    method Receive(e: InputEvent)
      modifies this
      ensures pending == old(pending) + [e]
      ensures count == old(count) && status == old(status)
    {
      pending := pending + [e];
    }

    /** term_construct: opens the session from counter 0; any other counter
        is a fatal misuse, restoring a positive one by term_destruct first. */
    method Construct()
      requires Valid() && status == Running
      modifies this
      ensures status == ConstructStatus(old(count))
      ensures status == Running ==> count == 1 && pending == []
      ensures status != Running ==> Restored(old(count), old(pending))
      ensures 0 <= old(count) <= 1 ==> 0 <= count <= 1
    {
      if count != 0 {
        var save := count;
        if count > 0 {
          Destruct();
          if status != Running { return; }
        }
        status := Exited(AlreadyConstructed(save));
        return;
      }
      count := count + 1;
      // FlushConsoleInputBuffer: no input from before the session counts.
      pending := [];
    }

    /** term_destruct: drains the pending keys while the session is still
        open, then closes it. */
    method Destruct()
      requires Valid() && status == Running
      modifies this
      decreases if count == 1 then 1 else 0, 5
      ensures old(count) == 1 ==> status == Running && count == 0 && pending == Drained(old(pending))
      ensures old(count) != 1 ==> status == Exited(NoSession(TermDestruct)) && count == old(count) && pending == old(pending)
      ensures 0 <= old(count) <= 1 ==> 0 <= count <= 1
    {
      CheckCount(TermDestruct);
      if status != Running { return; }
      Drain();
      count := count - 1;
    }

    /** The loop of term_destruct (term.c:166): term_key is called until it
        returns '\0'. */
    method Drain()
      requires Valid() && status == Running && count == 1
      modifies this
      decreases 0, 8
      ensures status == Running && count == 1 && pending == Drained(old(pending))
    {
      var key := Key();
      assert Drained(old(pending)) == if key == '\0' then pending else Drained(pending);
      while key != '\0'
        invariant status == Running && count == 1
        invariant (if key == '\0' then pending else Drained(pending)) == Drained(old(pending))
        decreases |pending| + if key == '\0' then 0 else 1
      {
        ghost var before := pending;
        key := Key();
        assert Drained(before) == if key == '\0' then pending else Drained(pending);
      }
    }

    /** check_count: exits unless exactly one session is open. The recovery
        term_destruct is skipped when the caller is term_destruct itself. */
    method CheckCount(op: Op)
      requires Valid() && status == Running
      modifies this
      decreases if count == 1 || op == TermDestruct then 0 else 2, 1
      ensures count == old(count) && pending == old(pending)
      ensures status == if old(count) == 1 then Running else Exited(SessionFault(op, old(count)))
    {
      if count != 1 {
        if count > 0 && op != TermDestruct {
          Destruct();
          if status != Running { return; }
        }
        status := Exited(NoSession(op));
      }
    }

    /** term_key, Win32 variant: skips records up to the first key press,
        consumes it and returns its character; '\0' when none is pending. */
    method Key() returns (key: char)
      requires Valid() && status == Running
      modifies this
      decreases if count == 1 then 0 else 2, 7
      ensures count == old(count)
      ensures old(count) == 1 ==> status == Running && (key, pending) == NextKey(old(pending))
      ensures old(count) != 1 ==> status == Exited(SessionFault(TermKey, old(count))) && pending == old(pending)
    {
      CheckCount(TermKey);
      if status != Running { return '\0'; }
      var record := InputEvent(Other, '\0');
      var keydown := false;
      while !keydown
        invariant status == Running && count == 1
        invariant (if keydown then (record.ascii, pending) else NextKey(pending)) == NextKey(old(pending))
        decreases |pending|
      {
        // PeekConsoleInput: no record pending.
        if pending == [] { return '\0'; }
        record := pending[0];
        keydown := record.kind.KeyDown?;
        // ReadConsoleInput consumes the record.
        pending := pending[1..];
      }
      key := record.ascii;
    }

    /** term_xmax. */
    method Xmax() returns (w: nat)
      requires Valid() && status == Running
      modifies this
      ensures count == old(count) && pending == old(pending)
      ensures status == if old(count) == 1 then Running else Exited(SessionFault(TermXmax, old(count)))
      ensures status == Running ==> w == W
    {
      CheckCount(TermXmax);
      w := W;
    }

    /** term_ymax. */
    method Ymax() returns (h: nat)
      requires Valid() && status == Running
      modifies this
      ensures count == old(count) && pending == old(pending)
      ensures status == if old(count) == 1 then Running else Exited(SessionFault(TermYmax, old(count)))
      ensures status == Running ==> h == H
    {
      CheckCount(TermYmax);
      h := H;
    }

    /** check, with the diagnostic evidently intended: x and y must lie on
        the screen, or the session is restored and the process exits. It is
        only called right after check_count has passed. */
    method Check(op: Op, x: nat, y: nat)
      requires Valid() && status == Running && count == 1
      modifies this
      ensures status == CheckStatus(op, x, y)
      ensures status == Running ==> count == 1 && pending == old(pending)
      ensures status != Running ==> Restored(1, old(pending))
    {
      var xmax := Xmax();
      if x >= xmax {
        Destruct();
        status := Exited(XTooLarge(op, x, xmax));
        return;
      }
      var ymax := Ymax();
      if y >= ymax {
        Destruct();
        status := Exited(YTooLarge(op, y, ymax));
        return;
      }
    }

    /** check as written: the diagnostic's term_xmax() / term_ymax() argument
        is evaluated after term_destruct has closed the session, so that call's
        own check_count exits first and names term_xmax / term_ymax. */
    method CheckAsWritten(op: Op, x: nat, y: nat)
      requires Valid() && status == Running && count == 1
      modifies this
      ensures x >= W ==> status == Exited(NoSession(TermXmax))
      ensures x < W && y >= H ==> status == Exited(NoSession(TermYmax))
      ensures x < W && y < H ==> status == Running && count == 1 && pending == old(pending)
      ensures status != Running ==> Restored(1, old(pending))
    {
      var xmax := Xmax();
      if x >= xmax {
        Destruct();
        // The process exits inside this call, before the intended report.
        var shown := Xmax();
        return;
      }
      var ymax := Ymax();
      if y >= ymax {
        Destruct();
        var shown := Ymax();
        return;
      }
    }

    /** term_put: writes c at (x, y) and nothing else, or exits leaving the
        screen untouched. */
    method Put(x: nat, y: nat, c: char)
      requires Valid() && status == Running
      modifies this, screen
      ensures status == PutStatus(old(count), x, y, c)
      ensures status == Running ==> count == 1 && pending == old(pending)
      ensures status == Running ==>
        forall i, j :: 0 <= i < W && 0 <= j < H ==>
          screen[i, j] == if i == x && j == y then c else old(screen[i, j])
      ensures status != Running ==> Restored(old(count), old(pending)) && unchanged(screen)
    {
      CheckCount(TermYmax);
      if status != Running { return; }
      Check(TermPut, x, y);
      if status != Running { return; }
      if !Printable(c) {
        Destruct();
        status := Exited(Unprintable(x, y, c));
        return;
      }
      screen[x, y] := c;
    }

    /** term_puts: writes s from (x, y) on, row by row, after checking that
        it fits before the last cell and that every character is printable;
        on any failure nothing is written. */
    method Puts(x: nat, y: nat, s: string)
      requires Valid() && status == Running
      requires '\0' !in s  // a C string ends at its first NUL
      modifies this, screen
      ensures status == PutsStatus(old(count), x, y, s)
      ensures status == Running ==> count == 1 && pending == old(pending)
      ensures status == Running ==>
        forall i, j :: 0 <= i < W && 0 <= j < H ==>
          screen[i, j] ==
            if Offset(W, x, y) <= Offset(W, i, j) < Offset(W, x, y) + |s|
            then s[Offset(W, i, j) - Offset(W, x, y)] else old(screen[i, j])
      ensures status != Running ==> Restored(old(count), old(pending)) && unchanged(screen)
    {
      CheckCount(TermPuts);
      if status != Running { return; }
      Check(TermPuts, x, y);
      if status != Running { return; }

      var len := |s|;
      var xmax := Xmax();
      var ymax := Ymax();
      if y * xmax + x + len >= ymax * xmax {
        Destruct();
        status := Exited(NoRoom(len, x, y));
        return;
      }
      assert Offset(W, x, y) + |s| < W * H by {
        assert ymax * xmax == W * H;
      }

      var k := 0;
      while k < |s|
        invariant k <= |s|
        invariant forall j :: 0 <= j < k ==> Printable(s[j])
        invariant status == Running && count == 1 && pending == old(pending)
        invariant unchanged(screen)
      {
        if !Printable(s[k]) {
          Destruct();
          status := Exited(UnprintableAt(s[k], k, x, y));
          return;
        }
        k := k + 1;
      }

      WriteWrapped(x, y, s);
    }

    /** The per-character write loop of term_puts (term.c:358-368): each
        character goes through term_put, then the position moves one column
        right, wrapping to the next row. Called once the session, the start
        cell, the room and every character have been checked. */
    method WriteWrapped(x: nat, y: nat, s: string)
      requires Valid() && status == Running && count == 1
      requires x < W && y < H && Offset(W, x, y) + |s| < W * H
      requires forall k :: 0 <= k < |s| ==> Printable(s[k])
      modifies this, screen
      ensures status == Running && count == 1 && pending == old(pending)
      ensures forall i, j :: 0 <= i < W && 0 <= j < H ==>
        screen[i, j] ==
          if Offset(W, x, y) <= Offset(W, i, j) < Offset(W, x, y) + |s|
          then s[Offset(W, i, j) - Offset(W, x, y)] else old(screen[i, j])
    {
      ghost var start := Offset(W, x, y);
      var i := 0;
      var cx, cy := x, y;
      CellOfOffset(W, x, y);
      while i < |s|
        invariant i <= |s|
        invariant status == Running && count == 1 && pending == old(pending)
        invariant (cx, cy) == Cell(W, start + i)
        invariant forall a, b :: 0 <= a < W && 0 <= b < H ==>
          screen[a, b] ==
            if start <= Offset(W, a, b) < start + i
            then s[Offset(W, a, b) - start] else old(screen[a, b])
      {
        CellInScreen(W, H, start + i);
        ghost var px, py := cx, cy;
        assert Offset(W, px, py) + 1 < W * H;
        Put(cx, cy, s[i]);
        OnlyCellAtOffset(W, px, py);
        cx := cx + 1;
        var w := Xmax();
        if cx >= w {
          cx := 0;
          cy := cy + 1;
          var h := Ymax();
          if cy >= h {
            cy := 0;
          }
        }
        assert (cx, cy) == Cell(W, start + (i + 1)) by {
          assert (cx, cy) == Advance(W, H, px, py);
          AdvanceFollowsOffset(W, H, px, py);
        }
        i := i + 1;
      }

      assert i == |s| && start == Offset(W, x, y);
      forall a, b | 0 <= a < W && 0 <= b < H
        ensures screen[a, b] ==
          if Offset(W, x, y) <= Offset(W, a, b) < Offset(W, x, y) + |s|
          then s[Offset(W, a, b) - Offset(W, x, y)] else old(screen[a, b])
      {
      }
    }

    /** Reading back a string term_puts wrote: under the room check, the
        cell at linear index offset + k, that is column (offset + k) % W of
        row (offset + k) / W, lies on the screen and holds s[k]. */
    lemma ReadBack(x: nat, y: nat, s: string, k: nat)
      requires Valid() && x < W && Offset(W, x, y) + |s| < W * H && k < |s|
      requires forall i, j :: 0 <= i < W && 0 <= j < H && Offset(W, x, y) <= Offset(W, i, j) < Offset(W, x, y) + |s| ==>
        screen[i, j] == s[Offset(W, i, j) - Offset(W, x, y)]
      ensures var (i, j) := Cell(W, Offset(W, x, y) + k); j < H && screen[i, j] == s[k]
    {
      CellInScreen(W, H, Offset(W, x, y) + k);
    }

    /** term_get: the character shown at (x, y); a query that changes
        nothing unless it exits. */
    method Get(x: nat, y: nat) returns (c: char)
      requires Valid() && status == Running
      modifies this
      ensures status == GetStatus(old(count), x, y)
      ensures status == Running ==> count == 1 && pending == old(pending) && c == screen[x, y]
      ensures status != Running ==> Restored(old(count), old(pending))
    {
      CheckCount(TermGet);
      if status != Running { return '\0'; }
      Check(TermGet, x, y);
      if status != Running { return '\0'; }
      c := screen[x, y];
    }
  }
}
