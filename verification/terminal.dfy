/** The terminal component as a state machine over input events: typing,
    submitting a line, and the Tab, ArrowUp and ArrowDown keys. */
module Terminal {
  import opened Optional
  import opened Interpreter
  import R = Recall
  import C = Commands
  import P = Profile
  import Completion

  datatype Key = Tab | ArrowUp | ArrowDown | OtherKey

  datatype Event = Edit(text: string) | Press(key: Key) | Enter

  /** `exited` records that `init` called the exit callback; the component
      is gone after that and ignores further events. */
  datatype State = State(transcript: seq<Line>, input: string, history: R.History, exited: bool)

  const Start: State := State(Initial, "", R.Empty, false)

  predicate Inv(s: State) {
    R.Valid(s.history) && R.Stored(s.history)
  }

  /** Enter: the line is recorded in the history (when not blank), run
      through the interpreter, and the input box is emptied. */
  function SubmitLine(profile: P.ProfileData, s: State): (r: State)
    ensures r.input == ""
    ensures r.history == R.Submit(s.history, s.input)
    ensures r.exited <==> CommandWord(s.input) == "init"
    ensures r.transcript == Execute(profile, s.transcript, s.input).transcript
  {
    var step := Execute(profile, s.transcript, s.input);
    State(step.transcript, "", R.Submit(s.history, s.input), step.signal == ExitSignal)
  }

  function Shown(current: string, m: R.Moved): string {
    match m.shown
    case Some(text) => text
    case None => current
  }

  /** A key press edits only the input box and the history cursor. */
  function KeyDown(s: State, key: Key): (r: State)
    requires R.Valid(s.history)
    ensures r.transcript == s.transcript && r.exited == s.exited
    ensures r.history.lines == s.history.lines && R.Valid(r.history)
    ensures key == Tab ==> r.history == s.history && (r.input == s.input || Completion.CompletesTo(s.input, C.Table, r.input))
    ensures key == Tab ==> r == s.(input := Completion.Complete(s.input, C.Table))
    ensures key == OtherKey ==> r == s
    ensures key != Tab && |s.history.lines| == 0 ==> r == s
    ensures key == ArrowUp && |s.history.lines| > 0 ==>
      && r.history.cursor == (if s.history.cursor == 0 then 0 else s.history.cursor - 1)
      && r.input == s.history.lines[r.history.cursor]
    ensures key == ArrowDown && |s.history.lines| > 0 ==>
      && r.history.cursor == (if s.history.cursor < |s.history.lines| then s.history.cursor + 1 else |s.history.lines|)
      && (r.history.cursor < |s.history.lines| ==> r.input == s.history.lines[r.history.cursor])
      && (r.history.cursor == |s.history.lines| ==> r.input == "")
  {
    match key
    case Tab => s.(input := Completion.Complete(s.input, C.Table))
    case ArrowUp =>
      var m := R.Up(s.history);
      s.(history := m.history, input := Shown(s.input, m))
    case ArrowDown =>
      var m := R.Down(s.history);
      s.(history := m.history, input := Shown(s.input, m))
    case OtherKey => s
  }

  function Handle(profile: P.ProfileData, s: State, e: Event): (r: State)
    requires Inv(s)
    ensures Inv(r)
    ensures s.exited ==> r == s
    ensures !s.exited && e.Edit? ==> r == s.(input := e.text)
    ensures !s.exited && e.Enter? ==>
      && r.input == ""
      && r.history == R.Submit(s.history, s.input)
      && r.transcript == Execute(profile, s.transcript, s.input).transcript
      && (r.exited <==> CommandWord(s.input) == "init")
    ensures !s.exited && e.Press? ==>
      && r.transcript == s.transcript && r.history.lines == s.history.lines && !r.exited
      && (e.key == Tab ==> r.history == s.history)
    ensures !s.exited && e.Press? ==> r == KeyDown(s, e.key)
  {
    if s.exited then s
    else
      match e
      case Edit(text) => s.(input := text)
      case Press(key) => KeyDown(s, key)
      case Enter => SubmitLine(profile, s)
  }

  /** A whole session: the events in order. */
  function Run(profile: P.ProfileData, s: State, events: seq<Event>): (r: State)
    requires Inv(s)
    ensures Inv(r)
    ensures s.exited ==> r == s
    decreases |events|
  {
    if |events| == 0 then s
    else Run(profile, Handle(profile, s, events[0]), events[1..])
  }

  /** From the start, the history cursor stays within the stored lines and
      every stored line is trimmed and non-empty, whatever is typed. */
  lemma SessionKeepsHistoryValid(profile: P.ProfileData, events: seq<Event>)
    ensures R.Valid(Run(profile, Start, events).history)
    ensures R.Stored(Run(profile, Start, events).history)
  {
    assert Inv(Start);
  }

  /** The events of pressing `keys` in order. */
  function Presses(keys: seq<Key>): (events: seq<Event>)
    ensures |events| == |keys|
    ensures forall i :: 0 <= i < |keys| ==> events[i] == Press(keys[i])
  {
    if |keys| == 0 then [] else [Press(keys[0])] + Presses(keys[1..])
  }

  /** One key press never touches the transcript or the stored lines. */
  lemma KeyKeepsTranscript(profile: P.ProfileData, s: State, key: Key)
    requires Inv(s)
    ensures var r := Handle(profile, s, Press(key));
      r.transcript == s.transcript && r.history.lines == s.history.lines && r.exited == s.exited
  {
  }

  /** Key presses never touch the transcript or the stored lines. */
  lemma {:induction false} KeysKeepTranscript(profile: P.ProfileData, s: State, keys: seq<Key>)
    requires Inv(s)
    ensures var r := Run(profile, s, Presses(keys));
      r.transcript == s.transcript && r.history.lines == s.history.lines && r.exited == s.exited
    decreases |keys|
  {
    if |keys| > 0 {
      var events := Presses(keys);
      assert events[1..] == Presses(keys[1..]);
      KeyKeepsTranscript(profile, s, keys[0]);
      KeysKeepTranscript(profile, Handle(profile, s, events[0]), keys[1..]);
    }
  }
}
