/** Console input as the Win32 backend of term.c sees it: a queue of input
    records, of which only key presses carry a key. */
module Keys {

  /** The kind of a console input record. Only a KEY_EVENT whose bKeyDown is
      set counts as a key press; key releases, mouse, focus, menu and resize
      records are skipped. */
  datatype EventKind = KeyDown | KeyUp | Other

  /** One console input record: its kind and the ASCII character it carries
      (0 for keys that have none, such as the arrow keys). */
  datatype InputEvent = InputEvent(kind: EventKind, ascii: char)

  /** `r` is what is left of `q` after some records were taken from its front. */
  predicate IsSuffix(r: seq<InputEvent>, q: seq<InputEvent>)
  {
    |r| <= |q| && r == q[|q| - |r|..]
  }

  /** What one call of term_key does to the pending input: it discards the
      records before the first key press, consumes that key press and returns
      its character; with no key press pending it consumes everything and
      returns '\0'. The result is the key and the input left afterwards. */
  function NextKey(q: seq<InputEvent>): (r: (char, seq<InputEvent>))
    ensures IsSuffix(r.1, q)
    ensures r.0 != '\0' ==> |r.1| < |q|
  {
    if q == [] then ('\0', [])
    else if q[0].kind.KeyDown? then (q[0].ascii, q[1..])
    else NextKey(q[1..])
  }

  /** The input left after term_destruct's drain: term_key is called until it
      returns '\0'. */
  function Drained(q: seq<InputEvent>): (r: seq<InputEvent>)
    ensures IsSuffix(r, q)
    decreases |q|
  {
    var (key, rest) := NextKey(q);
    if key == '\0' then rest else Drained(rest)
  }

  /** term_key returns the first key press and leaves exactly what follows it. */
  lemma {:induction false} NextKeyTakesFirstKeyDown(q: seq<InputEvent>, k: nat)
    requires k < |q| && q[k].kind.KeyDown?
    requires forall j :: 0 <= j < k ==> !q[j].kind.KeyDown?
    ensures NextKey(q) == (q[k].ascii, q[k + 1..])
  {
    if k > 0 {
      NextKeyTakesFirstKeyDown(q[1..], k - 1);
      assert q[1..][k..] == q[k + 1..];
    }
  }

  /** With no key press pending term_key returns '\0' and consumes every record. */
  lemma {:induction false} NextKeyWithoutKeyDown(q: seq<InputEvent>)
    requires forall j :: 0 <= j < |q| ==> !q[j].kind.KeyDown?
    ensures NextKey(q) == ('\0', [])
  {
    if q != [] {
      NextKeyWithoutKeyDown(q[1..]);
    }
  }

  /** The drain empties the input queue unless some pending key press carries
      the character '\0'. */
  lemma {:induction false} DrainedEmptiesQueue(q: seq<InputEvent>)
    requires forall j :: 0 <= j < |q| && q[j].kind.KeyDown? ==> q[j].ascii != '\0'
    ensures Drained(q) == []
  {
    if q != [] {
      DrainedEmptiesQueue(q[1..]);
    }
  }

  /** A key press carrying '\0' ends the drain early: what follows the first
      such key press is left pending. */
  lemma {:induction false} DrainedStopsAtNulKey(q: seq<InputEvent>, k: nat)
    requires k < |q| && q[k].kind.KeyDown? && q[k].ascii == '\0'
    requires forall j :: 0 <= j < k && q[j].kind.KeyDown? ==> q[j].ascii != '\0'
    ensures Drained(q) == q[k + 1..]
  {
    if k > 0 {
      DrainedStopsAtNulKey(q[1..], k - 1);
      assert q[1..][k..] == q[k + 1..];
    }
  }
}
