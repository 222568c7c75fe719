# term.c session layer in Dafny

`term.c` is a small text-terminal driver: a fixed W x H character screen,
non-blocking key polling, and a process-wide session that must be opened with
`term_construct` and closed with `term_destruct`. This project models the
session layer over the Win32 console backend:

- the construct/destruct counter `count` and the `check_count` guard in front
  of every operation;
- the coordinate check `check` and the `isprint` check of the C locale
  (0x20 to 0x7E);
- `term_put`, `term_puts` with its room check, all-or-nothing validation and
  per-character wrap loop, and `term_get`;
- `term_key` with its loop that skips console records until a key press;
- the drain loop of `term_destruct`.

A fatal path of term.c restores the terminal with `term_destruct` when a
session is open, prints a diagnostic, then calls `exit(EXIT_FAILURE)`. Three
paths skip the restore: `check_count` with `count <= 0`, `term_construct`
with a negative `count`, and the Win32 `message`. The model
records the exit as `status := Exited(reason)`, where `reason` is a `Fatal`
value naming the diagnostic and its arguments. The screen is left unwritten
for that call. No operation can be called once the process has exited.

Files:

- `keys.dfy` (module `Keys`): console input records, one `term_key` call
  (`NextKey`), the drain (`Drained`), and lemmas characterising both.
- `layout.dfy` (module `Layout`): row-major cell indices, the wrap step of
  the `term_puts` loop (`Advance`), and lemmas tying the two together.
- `term.dfy` (module `Term`): class `Terminal` with the counter, the screen
  (`array2<char>`, indexed `[x, y]`), the pending input and the process
  status. Each operation is a method, specified by outcome functions
  (`PutStatus`, `PutsStatus`, ...) and by the new screen and input.
- `scenarios.dfy` (module `Scenarios`): client methods on an 80 x 24
  console. Each is proved from the contracts alone.

`count` is an unbounded `int`, and every branch on `count` of the session
logic is modelled, even those a correct caller never reaches. That includes `count >= 2`, where
`check_count`'s recovery `term_destruct` fails at its own `check_count`. The
methods `CheckCount`, `Destruct` and `Key` call each other, as
`check_count`, `term_destruct` and `term_key` do. Their termination measure
reflects why the C code does not recurse: `check_count` calls `term_destruct`
only when `count != 1`, and `term_destruct` reaches `term_key` only when
`count == 1`. No method takes `count` out of {0, 1}. `Construct` and
`Destruct` state this directly. The other methods either leave `count`
unchanged or restore it from 1 to 0.

`term_put` passes the name `"term_ymax"` to `check_count` (term.c:275). The
model keeps this, so `term_put` called before `term_construct` exits with
`NoSession(TermYmax)`.

## Model

| member | source | states |
|---|---|---|
| Keys.NextKey | term.c:456-476 | one `term_key` consumes a prefix of the pending records; returning a key other than '\0' consumes at least one |
| Keys.NextKeyTakesFirstKeyDown | term.c:463-475 | `term_key` returns the character of the first key press and leaves exactly the records after it |
| Keys.NextKeyWithoutKeyDown | term.c:463-467 | with no key press pending, `term_key` returns '\0' and consumes every record |
| Keys.Drained | term.c:164-167 | the input left after the drain is a suffix of the input before it |
| Keys.DrainedEmptiesQueue | term.c:165-167 | if no pending key press carries '\0', the drain leaves no input pending |
| Keys.DrainedStopsAtNulKey | term.c:166-167 | the first key press carrying '\0' stops the drain; exactly the records after it stay pending |
| Layout.Advance | term.c:360-366 | one step of the `term_puts` loop: one column right, column 0 of the next row past the last column, (0, 0) past the last row; from a cell on the screen it stays on the screen |
| Layout.Cell | term.c:322 | the cell of linear index p lies in the first w columns, and its linear index is p |
| Layout.OffsetInjective | term.c:322 | two cells have the same linear index exactly when they are the same cell |
| Layout.CellInScreen | term.c:322 | a linear index is below W*H exactly when its cell lies in the first H rows |
| Layout.AdvanceFollowsOffset | term.c:358-368 | away from the last cell, one step of the `term_puts` loop moves to the cell whose linear index is one more |
| Layout.CornerWrapOnlyFromLastCell | term.c:363-366 | the wrap back to (0, 0) is taken exactly when the step starts at the last cell |
| Layout.RoomExcludesCornerWrap | term.c:321-368 | under the room check, none of the cells the loop writes is the last cell, so the wrap to (0, 0) is never taken |
| Term.Printable | term.c:278 | `isprint` in the C locale, also used at term.c:334: defined as the characters ' ' (0x20) through '~' (0x7E) |
| Term.FirstUnprintable | term.c:333-345 | the validation stops at the first character that fails `isprint`; every character before it passes |
| Term.Terminal.constructor | term.c:37-41 | process start: no session (`count == 0`), running, a blank screen of the backend's size |
| Term.Terminal.Construct | term.c:61-156 | from `count == 0` the session opens with the input flushed; `count == 1` restores (drains, count 0) and exits "already been called 1 time"; a negative count exits without restoring; `count` stays in {0, 1} |
| Term.Terminal.Drain | term.c:165-167 | in an open session, `term_key` is called until it returns '\0'; the input left is `Drained` of the input before, and the session stays open |
| Term.Terminal.Destruct | term.c:158-168 | with `count == 1`: input replaced by its drained form, then `count == 0`; otherwise it exits reporting term_destruct and changes nothing |
| Term.Terminal.CheckCount | term.c:537-552 | passes and changes nothing exactly when `count == 1`; otherwise it exits, naming the caller, or term_destruct when its recovery call failed |
| Term.Terminal.Key | term.c:433-476 | in an open session the key and the input left are those of `NextKey`; otherwise it exits as `check_count` does |
| Term.Terminal.Xmax | term.c:226-241 | returns W in an open session; otherwise it exits |
| Term.Terminal.Ymax | term.c:243-258 | returns H in an open session; otherwise it exits |
| Term.Terminal.Check | term.c:554-575 | x >= W or y >= H restores the terminal and exits with the intended report; otherwise nothing changes |
| Term.Terminal.CheckAsWritten | term.c:554-575 | as written: an out-of-range x or y restores the terminal, then exits inside the term_xmax / term_ymax call made for the report |
| Term.Terminal.Put | term.c:260-308 | session, coordinate and `isprint` checks in that order; on success exactly cell (x, y) becomes c; on failure the terminal is restored and the screen is untouched |
| Term.Terminal.Puts | term.c:310-384 | checks session, start cell, room (`y*W + x + len < W*H`) and every character before any write; on success the cells at linear indices y*W+x .. y*W+x+len-1 hold s and no other cell changes; on failure nothing is written |
| Term.Terminal.WriteWrapped | term.c:352-369 | the per-character loop puts s[i] at linear index y*W + x + i and changes no other cell |
| Term.Terminal.ReadBack | term.c:358-368 | after such a write, the cell in column (y*W+x+k) % W of row (y*W+x+k) / W lies on the screen and holds s[k] |
| Term.Terminal.Get | term.c:386-426 | after the session and coordinate checks, returns the character in cell (x, y) and changes nothing |
| Scenarios.PutThenGet | term.c:260-308 | open, put 'A' at (0, 0), and reading it back gives 'A' |
| Scenarios.PutsWithinRow | term.c:358-368 | on 80 x 24, "AB" from (78, 0) puts 'A' at (78, 0) and 'B' at (79, 0), with no wrap |
| Scenarios.PutsWrapsRow | term.c:358-368 | on 80 x 24, "AB" from (79, 0) puts 'A' at (79, 0) and 'B' at (0, 1) |
| Scenarios.PutsAllOrNothing | term.c:333-345 | an invalid character at index 1 exits before 'A' at index 0 is written |
| Scenarios.PutsLastCellHasNoRoom | term.c:321-331 | the strict room check rejects a one-character string at the last cell |
| Scenarios.ConstructTwice | term.c:63-75 | a second `term_construct` restores the session (count 0) and exits "already been called 1 time" |
| Scenarios.PutBeforeConstruct | term.c:275 | `term_put` before `term_construct` exits naming term_ymax |
| Scenarios.PastRightEdgeAsWritten | term.c:556-563 | as written, x == 80 on an 80-column screen exits with the term_xmax session message |
| Scenarios.PutPastRightEdge | term.c:556-563 | with the intended report, x == 80 exits reporting x == 80 and term_xmax == 80, after restoring |
| Scenarios.KeySkipsOtherEvents | term.c:463-475 | records that are not key presses are skipped; the first key press is returned and later records stay |
| Scenarios.NoKeyPending | term.c:143-146 | a key typed before `term_construct` is discarded by its flush of the console input, so the first `term_key` returns '\0' |
| Scenarios.DestructDrainsInput | term.c:164-168 | keys typed during a session are gone after `term_destruct`; a new session polls '\0' |
| Scenarios.NulKeyStopsDrain | term.c:166 | a key press carrying '\0' ends the drain and leaves later keys pending |

## Findings

| source | as written | input that shows it | evidently intended | confidence | as-written member | corrected member |
|---|---|---|---|---|---|---|
| term.c:556-574 | `check` calls `term_destruct()`, which sets `count` to 0. The report's `term_xmax()` (or `term_ymax()`) argument is evaluated after that. That call's `check_count` fails, prints "term_xmax: must have exactly one previous call to term_construct" and exits. The coordinate report is never printed | `term_put(80, 0, 'A')` in an open 80 x 24 session (`Scenarios.PastRightEdgeAsWritten`) | print "term_put: x == 80, term_xmax == 80", with the limit read before the restore (`Scenarios.PutPastRightEdge`) | high; not executed | Term.Terminal.CheckAsWritten | Term.Terminal.Check |

Both versions restore the terminal and exit with failure status. Only the
diagnostic differs. `Put`, `Puts` and `Get` use the corrected `Check`.

## Left out

- Backend selection: only the Win32 backend is modelled. That covers its `term_key` event loop and the per-character `term_puts` loop it shares with Borland. The curses and Borland `term_key`, curses' whole-string `mvprintw`, and the UNIX `term_xmax`/`term_ymax` struct arithmetic are not modelled.
- Native calls are reduced to their effect on the screen and the input queue. Console set-up, colours, window size, cursor visibility and the vt100 escapes, the `fcntl` O_NDELAY repair, `system("PAUSE")` and Borland's "Press any key" wait have no state here.
- Backend soft and hard failures: every native call is assumed to succeed. On Win32 most failed calls go through `message`, which formats the error text and exits; the results of `WriteConsoleOutputCharacter` in `term_put` (term.c:294-300) and of `ReadConsoleInput` in `term_key` (term.c:472) are ignored, so a failed write there leaves the cell unchanged while `term_put` returns normally. `message` is not modelled. A failed `PeekConsoleInput` in `term_key` returns '\0' as an empty queue does (term.c:464-467); the model has only the empty-queue case.
- `term_wait` and `term_beep`: sleeping and sound carry no state.
- Diagnostic texts: each diagnostic is a `Fatal` value that names it and carries its arguments. The text and the stderr output are not modelled.
- `Put`, `Puts`, `Get`: for an off-screen coordinate they exit with `XTooLarge` or `YTooLarge`, the report `check` evidently intends. The program as written exits with `NoSession(TermXmax)` or `NoSession(TermYmax)` instead (see Findings and `CheckAsWritten`). Terminal state and exit status agree in both versions.
- Drain: input reaches the queue only between operations, through `Receive`. A key typed while `term_destruct` drains cannot arrive, so the model's drain always ends. The loop at term.c:166 keeps running for as long as new key presses keep arriving.
- W and H are constructor arguments fixed for the process. On Win32 they are always 80 and 24. The initial screen is blank.
- Integer width: `unsigned` and `size_t` are unbounded here. The room check `y*W + x + len` cannot overflow for any string that fits in memory on a screen of realistic size.
- Characters: a Dafny `char` above 0xFF has no C `char` counterpart and is treated as not printable.
- `Puts` requires that `s` has no '\0', because a C string ends at its first NUL.
- `Receive` is not part of term.c. It stands for the console delivering an input record, so that clients can queue input.
