/** Input history: submitted lines and a cursor moved by ArrowUp/ArrowDown. */
module Recall {
  import opened Ascii
  import opened Optional

  /** The stored lines and the cursor into them; a cursor equal to the
      number of lines stands past the newest line. */
  datatype History = History(lines: seq<string>, cursor: nat)

  /** The result of a key press: the new history and the text to show in
      the input box, or `None` when the input is left as it was. */
  datatype Moved = Moved(history: History, shown: Option<string>)

  const Empty: History := History([], 0)

  /** The cursor never leaves `[0, |lines|]`. */
  predicate Valid(h: History) {
    h.cursor <= |h.lines|
  }

  /** Every stored line is trimmed and not empty. */
  predicate Stored(h: History) {
    forall i :: 0 <= i < |h.lines| ==> h.lines[i] != "" && Trim(h.lines[i]) == h.lines[i]
  }

  /** On submission a non-blank line is stored trimmed and the cursor moves
      past it; a blank line changes nothing. */
  function Submit(h: History, input: string): (r: History)
    ensures Trim(input) != "" ==> r.lines == h.lines + [Trim(input)] && r.cursor == |r.lines|
    ensures Trim(input) == "" ==> r == h
    ensures Valid(h) ==> Valid(r)
    ensures Stored(h) ==> Stored(r)
  {
    var trimmed := Trim(input);
    TrimIdempotent(input);
    if trimmed != "" then History(h.lines + [trimmed], |h.lines| + 1) else h
  }

  /** ArrowUp: one line older, stopping at the oldest. */
  function Up(h: History): (m: Moved)
    requires Valid(h)
    ensures Valid(m.history) && m.history.lines == h.lines
    ensures |h.lines| == 0 ==> m == Moved(h, None)
    ensures |h.lines| > 0 ==> m.shown.Some? && m.shown.value in h.lines
    ensures m.history.cursor <= h.cursor
    ensures h.cursor > 0 ==> m.history.cursor == h.cursor - 1
    ensures |h.lines| > 0 ==> m.shown == Some(h.lines[m.history.cursor])
  {
    if |h.lines| > 0 then
      var i := if h.cursor == 0 then 0 else h.cursor - 1;
      Moved(History(h.lines, i), Some(h.lines[i]))
    else Moved(h, None)
  }

  /** ArrowDown: one line newer, stopping past the newest, where the input
      is emptied. */
  function Down(h: History): (m: Moved)
    requires Valid(h)
    ensures Valid(m.history) && m.history.lines == h.lines
    ensures |h.lines| == 0 ==> m == Moved(h, None)
    ensures m.history.cursor >= h.cursor
    ensures |h.lines| > 0 && h.cursor < |h.lines| ==> m.history.cursor == h.cursor + 1
    ensures |h.lines| > 0 && m.history.cursor < |h.lines| ==> m.shown == Some(h.lines[m.history.cursor])
    ensures |h.lines| > 0 && m.history.cursor == |h.lines| ==> m.shown == Some("")
  {
    if |h.lines| > 0 then
      var i := if h.cursor + 1 < |h.lines| then h.cursor + 1 else |h.lines|;
      var text := if i < |h.lines| && h.lines[i] != "" then h.lines[i] else "";
      Moved(History(h.lines, i), Some(text))
    else Moved(h, None)
  }

  /** ArrowDown undoes ArrowUp whenever ArrowUp moved. */
  lemma DownUndoesUp(h: History)
    requires Valid(h) && h.cursor > 0
    ensures Down(Up(h).history).history == h
  {
  }

  /** ArrowUp undoes ArrowDown whenever ArrowDown moved. */
  lemma UpUndoesDown(h: History)
    requires Valid(h) && h.cursor < |h.lines|
    ensures Up(Down(h).history).history == h
  {
  }

  /** ArrowUp pressed `n` times. */
  function UpTimes(h: History, n: nat): (m: Moved)
    requires Valid(h)
    ensures Valid(m.history) && m.history.lines == h.lines
    decreases n
  {
    if n == 0 then Moved(h, None)
    else if n == 1 then Up(h)
    else UpTimes(Up(h).history, n - 1)
  }

  /** Walking back from the cursor with ArrowUp shows the lines newest first:
      after `n` presses the line `n` places before the cursor. */
  lemma {:induction false} UpWalksBack(h: History, n: nat)
    requires Valid(h) && 1 <= n <= h.cursor
    ensures UpTimes(h, n).history.cursor == h.cursor - n
    ensures UpTimes(h, n).shown == Some(h.lines[h.cursor - n])
    decreases n
  {
    if n > 1 {
      UpWalksBack(Up(h).history, n - 1);
    }
  }
}
