# Profile terminal: the command interpreter, in Dafny

This project models the command interpreter of a web page that presents a
personal profile as a simulated terminal. The user types a line. The line is
trimmed, lower-cased and cut at single spaces into a command word and
arguments. A fixed `switch` over the command word then appends an echo of the
raw line and at most one response or error to the transcript, empties the
transcript (`clear`), or leaves the session (`init`). Around the interpreter
sit three more pieces of pure logic, all modelled here:

- Tab completion of a unique command or argument prefix.
- The input history that Enter appends to and that ArrowUp/ArrowDown walk
  through with a clamped cursor.
- The `search` filter over the profile's projects.

The rendered markup is replaced by tagged payloads (`Help`, `Whoami`, `Scan`,
`Section(name, body)`, `SearchResults(query, projects)`, `NoResults(query)`,
`Social`, `Contact`, `Resume`, `Ls`). Each payload carries the profile data
its markup would show. Errors are tagged in the same way
(`SectionNotFound(given)`, `MissingKeyword`, `UnknownCommand(name)`).

Files, one module each:

| file | module | models |
|---|---|---|
| optional.dfy | `Optional` | optional fields and their truthiness |
| ascii.dfy | `Ascii` | `toLowerCase` and `trim`, ASCII only |
| tokens.dfy | `Tokens` | `split(' ')`, `join`, `split(/\s+/)` |
| substrings.dfy | `Substrings` | `startsWith`, `includes` |
| profile.dfy | `Profile` | the profile schema of `types.ts` |
| commands.dfy | `Commands` | the `commands` table and the `sections` list |
| search.dfy | `Search` | the project filter of `search` |
| interpreter.dfy | `Interpreter` | `handleCommand` |
| completion.dfy | `Completion` | the Tab branch of `handleKeyDown` |
| recall.dfy | `Recall` | history append on submit, ArrowUp/ArrowDown |
| terminal.dfy | `Terminal` | the component as an event-driven state machine |
| instance.dfy | `Instance` | the profile record of `constants.ts`, with concrete checks |

The model follows the code in these less obvious places:

- An empty or blank line is not a no-op: it still appends its echo
  (`Interpreter.BlankLineEchoes`).
- The line is split on single spaces, not on runs of whitespace. So
  `show  about` yields an empty first argument and an error
  (`Interpreter.ShowDoubleSpace`).
- Tab completion, unlike dispatch, cuts the line at runs of whitespace. So
  Tab on `show  ab` still completes to `show about `
  (`Completion.TabAcrossRun`).
- `show` arguments are not matched case-sensitively. The whole line,
  arguments included, is lower-cased first, so `show ABOUT` is accepted
  (`Interpreter.ShowUpperCase`).
- `init` leaves the transcript as it was and only raises the exit signal.

## Model

| member | source | states |
|---|---|---|
| Ascii.ToLower | components/Terminal.tsx:62 | the result has the same length, maps every character through ASCII lower-casing, and holds no upper-case letter |
| Ascii.Trim | components/Terminal.tsx:62 | the result neither starts nor ends with whitespace; `TrimUnique` and `TrimParts` pin down which infix it is |
| Ascii.TrimUnique | components/Terminal.tsx:62 | trimming a middle part surrounded by whitespace runs returns exactly that middle part, an independent characterisation of `trim` |
| Ascii.TrimParts | components/Terminal.tsx:62 | every line is its trimmed form between two whitespace runs, so `trim` only removes whitespace at the ends |
| Ascii.TrimToLower | components/Terminal.tsx:62 | trimming and lower-casing commute, so their order in the parse does not matter |
| Ascii.TrimIdempotent | components/Terminal.tsx:326 | trimming an already trimmed line changes nothing |
| Tokens.Split | components/Terminal.tsx:62 | `split(' ')` gives at least one piece and no piece holds the separator; `JoinSplit` and `SplitJoin` make it the inverse of `Join` |
| Tokens.Join | components/Terminal.tsx:184 | no contract; `JoinSplit` and `SplitJoin` state what joining means |
| Tokens.JoinSplit | components/Terminal.tsx:62 | joining the pieces of `split(sep)` with `sep` gives back the split string |
| Tokens.SplitJoin | components/Terminal.tsx:62 | splitting a join of separator-free pieces gives back the pieces, empty pieces included |
| Tokens.SplitAtSeparator | components/Terminal.tsx:62 | a separator-free word followed by the separator is split off whole as the first piece, and the rest is split on its own |
| Tokens.SplitWs | components/Terminal.tsx:340 | `split(/\s+/)` gives at least one piece and no piece holds whitespace; `SplitWsJoin` and `SplitWsWordRun` say which pieces |
| Tokens.SplitWsJoin | components/Terminal.tsx:340 | on non-empty words joined by single spaces, `split(/\s+/)` gives back the words |
| Tokens.SplitWsRun | components/Terminal.tsx:340 | a whitespace run of any length and mix before a non-space character is one separator, leaving a single empty piece |
| Tokens.SplitWsWordRun | components/Terminal.tsx:340 | a word followed by any whitespace run is split off whole, so adjacent blanks and tabs leave no empty piece |
| Substrings.IsPrefix | components/Terminal.tsx:345 | no contract; it is `startsWith` by definition |
| Substrings.Contains | components/Terminal.tsx:191-192 | no contract; `ContainsIff` states what it means |
| Substrings.ContainsIff | components/Terminal.tsx:191-192 | `includes` holds exactly when the needle occurs at some position of the haystack |
| Commands.Lookup | components/Terminal.tsx:350-351 | a lookup misses exactly when the name is not a key of the table; a hit returns a spec stored under that name |
| Commands.LookupEntry | components/Terminal.tsx:350-351 | with distinct keys, looking up the key of any entry returns that entry's spec |
| Commands.ParseSection | components/Terminal.tsx:113 | a name is accepted exactly when it is one of the seven `sections`, and the section found has that name |
| Commands.ParseSectionName | components/Terminal.tsx:20 | every section's name is recognised as that section |
| Commands.TableWellFormed | components/Terminal.tsx:20-41 | the declared keys and section names are lower-case single words and none is a prefix of another |
| Search.Matches | components/Terminal.tsx:190-193 | no contract; `Filter` states which projects it keeps |
| Search.Filter | components/Terminal.tsx:190-193 | the kept projects are exactly the listed projects whose lower-cased description or some lower-cased technology contains the keyword |
| Search.FilterAppend | components/Terminal.tsx:190-193 | filtering keeps the original order: filtering a concatenation concatenates the filtered parts |
| Search.FilterIdempotent | components/Terminal.tsx:190-193 | filtering the result again keeps every project |
| Search.FilterAll | components/Terminal.tsx:190-193 | when every project matches, the result is the whole list |
| Interpreter.Parse | components/Terminal.tsx:62 | there is at least one word, and no word contains a space |
| Interpreter.ParseRejoins | components/Terminal.tsx:62 | the words re-joined with single spaces give the trimmed, lower-cased line, so the parse loses nothing |
| Interpreter.HelpEntries | components/Terminal.tsx:71-74 | help lists every command in table order, showing its usage when one is declared and its key otherwise |
| Interpreter.ContactRows | components/Terminal.tsx:256-292 | the e-mail row always comes first and is the only e-mail row; the rows follow the card's order e-mail, LinkedIn, GitHub, phone, so each field appears at most once |
| Interpreter.OptionalRow | components/Terminal.tsx:268-290 | an optional card row appears, once, exactly when its field is present and not empty, carrying the stored value |
| Interpreter.ContactRowsShowPresent | components/Terminal.tsx:268-290 | LinkedIn, GitHub and phone rows appear exactly when that field is present and not empty, with the stored value |
| Interpreter.Show | components/Terminal.tsx:111-182 | an error exactly when the first argument is missing or not a section, naming it or the empty string; otherwise a response headed by that section with its content |
| Interpreter.SearchReply | components/Terminal.tsx:183-237 | an error exactly when the joined keyword is empty; "not found" exactly when no project matches; otherwise the filtered projects, non-empty |
| Interpreter.Reply | components/Terminal.tsx:65-320 | no contract; see `ReplyRecognisesTable`, `ReplyErrors` and `ReplyPayloads` |
| Interpreter.ReplyRecognisesTable | components/Terminal.tsx:65-320 | clears exactly on `clear`, exits exactly on `init`, stays silent exactly on the empty word, reports an unknown command exactly for non-empty words outside the table, answers every other key |
| Interpreter.ReplyErrors | components/Terminal.tsx:65-320 | an error line comes exactly from an unknown non-empty word, a missing or unknown section after `show`, or an empty keyword after `search`: the two error kinds and nothing else |
| Interpreter.ReplyPayloads | components/Terminal.tsx:66-309 | `help` lists the table's entries, `whoami` the profile's name, title and image only when one is set, `ls` and `scan` their fixed texts and the seven sections, `social` the links, `contact` the contact card, `resume` the résumé address; `show` and `search` answer with their own replies |
| Interpreter.Execute | components/Terminal.tsx:61-322 | no contract; see `TranscriptGrowth` and `ExecuteWithReply` |
| Interpreter.ExecuteWithReply | components/Terminal.tsx:63-321 | when the command word's reply is one line, the new transcript is the old one, the raw echo and exactly that reply line, with no signal |
| Interpreter.TranscriptGrowth | components/Terminal.tsx:61-322 | `clear` empties, `init` keeps the transcript and exits; every other word appends the raw echo and at most one reply; known words append exactly two lines, unknown words the echo and one error naming the word |
| Interpreter.ParseIgnoresCase | components/Terminal.tsx:62 | lines equal up to letter case parse to the same words |
| Interpreter.ExecuteIgnoresCase | components/Terminal.tsx:62-63 | lines equal up to letter case give the same signal and the same lines, except the echo |
| Interpreter.ArgumentsAreRestOfLine | components/Terminal.tsx:184 | the joined arguments are exactly the text after the first space of the trimmed, lower-cased line |
| Interpreter.ShowIgnoresExtraArgs | components/Terminal.tsx:112 | arguments after the first do not change the answer of `show` |
| Interpreter.ClearEmpties | components/Terminal.tsx:313-315 | `clear` gives the empty transcript whatever came before |
| Interpreter.BlankLineEchoes | components/Terminal.tsx:316-317 | a blank line appends only its echo |
| Interpreter.ShowBogus | components/Terminal.tsx:113-114 | `show bogus` appends the echo and one error naming `bogus` |
| Interpreter.ShowUpperCase | components/Terminal.tsx:62 | `show ABOUT` displays the about section |
| Interpreter.ShowDoubleSpace | components/Terminal.tsx:112-114 | `show  about` is rejected with an empty section name |
| Interpreter.SearchWithoutKeyword | components/Terminal.tsx:184-188 | `search ` appends the echo and the missing-keyword error |
| Interpreter.ScanTwice | components/Terminal.tsx:101-110 | two `scan`s give two echoes, each followed by the same seven section names in order |
| Completion.PrefixMatches | components/Terminal.tsx:345 | the kept candidates are exactly those that start with the prefix |
| Completion.SingleMatch | components/Terminal.tsx:345-346 | among distinct candidates, one kept candidate is the same as exactly one candidate starting with the prefix |
| Completion.Complete | components/Terminal.tsx:338-360 | Tab either leaves the input alone or completes one token to a key it starts, or two tokens to a command and one of its arguments |
| Completion.CompleteCommand | components/Terminal.tsx:343-348 | with one token, the input becomes `key + " "` exactly when one key starts with the token, and is otherwise unchanged |
| Completion.CompleteArgument | components/Terminal.tsx:349-357 | with two tokens, the input becomes `cmd + " " + arg + " "` exactly when the command has an argument list with one argument starting with the token, and is otherwise unchanged |
| Completion.CompleteManyTokens | components/Terminal.tsx:343-358 | more than two tokens are never completed |
| Completion.CompleteIdempotent | components/Terminal.tsx:338-358 | pressing Tab twice gives the same input as pressing it once |
| Completion.TabOnSh | components/Terminal.tsx:343-348 | Tab on `sh` gives `show ` |
| Completion.TabOnS | components/Terminal.tsx:343-348 | Tab on `s` changes nothing, as four commands start with `s` |
| Completion.TabAcrossRun | components/Terminal.tsx:340-357 | Tab on `show`, any whitespace run, then `ab` completes to `show about ` |
| Recall.Submit | components/Terminal.tsx:326-331 | a non-blank line is stored trimmed and the cursor moves past it; a blank line changes nothing; the cursor bound and trimmed storage are kept |
| Recall.Up | components/Terminal.tsx:361-369 | ArrowUp never changes the stored lines, moves the cursor back by one stopping at zero, and shows a stored line |
| Recall.Down | components/Terminal.tsx:370-378 | ArrowDown never changes the stored lines, moves the cursor forward by one stopping at the length, and shows the empty string there |
| Recall.DownUndoesUp | components/Terminal.tsx:361-377 | ArrowDown returns to the state ArrowUp left, whenever ArrowUp moved |
| Recall.UpUndoesDown | components/Terminal.tsx:361-377 | ArrowUp returns to the state ArrowDown left, whenever ArrowDown moved |
| Recall.UpWalksBack | components/Terminal.tsx:361-369 | `n` ArrowUps show the line `n` places before the cursor: newest first |
| Terminal.SubmitLine | components/Terminal.tsx:324-334 | Enter records the line in the history, runs it through the interpreter, exits exactly on `init`, and empties the input |
| Terminal.KeyDown | components/Terminal.tsx:336-382 | key presses never change the transcript or the stored lines; Tab changes only the input, as completion allows; with stored lines, ArrowUp moves the cursor back one stopping at zero and shows that line, ArrowDown moves it forward one stopping past the newest and shows that line or the empty string there; with none, the arrows change nothing; Tab sets the input to exactly what completion gives |
| Terminal.Handle | components/Terminal.tsx:402-411 | every event keeps the history invariant, and after `init` nothing changes; typing replaces the input and nothing else; Enter records the line, runs it, exits exactly on `init` and empties the input; a key press keeps the transcript and the stored lines; a key press is exactly what the key handler does |
| Terminal.Run | components/Terminal.tsx:324-382 | a session of events keeps the cursor within the stored lines and the stored lines trimmed and non-empty |
| Terminal.SessionKeepsHistoryValid | components/Terminal.tsx:326-377 | from the start state, every sequence of events keeps the history invariant |
| Terminal.KeysKeepTranscript | components/Terminal.tsx:336-382 | any sequence of key presses leaves the transcript and the stored lines as they were |
| Instance.SearchPostgresql | components/Terminal.tsx:184-196 | on the repository's profile, searching "postgresql" finds its single project through the PostgreSQL technology |
| Instance.RecallAbc | components/Terminal.tsx:326-377 | after submitting `a`, `b`, `c`, ArrowUp shows `c`, `b`, `a`, and ArrowDown past the newest line shows the empty string |

## Left out

- Markup, CSS classes, images, links and the Portuguese message texts. Outputs are abstract tags carrying the data. Project cards carry the project record rather than the rows the card renders.
- The React effects: input focus, `scrollIntoView`, and the welcome-message effect. The welcome line is only the initial transcript `Interpreter.Initial`.
- Asynchronous `setState` and stale closures. Each event is one sequential state transition.
- The start screen, the app shell and the theme switcher. They are presentation and event plumbing.
- The exit callback. It is modelled as the `ExitSignal` value and the `exited` flag; the component ignores events afterwards because it is unmounted.
- Unicode case folding and Unicode whitespace in `toLowerCase`, `trim` and `\s`. Only ASCII is modelled.
- The phone link strips whitespace for its `tel:` address. That is presentation; the row shows the stored value.
- The inner `default` of the section `switch` ("under construction") is unreachable after validation and is not modelled.
- `commands[name]` in the Tab handler can hit `Object.prototype` names such as `constructor`. Those have no `args`, so they behave like a miss, which is how `Commands.Lookup` treats them.
- Recall.Up: requires the cursor to lie within `[0, |lines|]`. The source assumes this without checking it; `Terminal.SessionKeepsHistoryValid` proves every reachable state satisfies it.
- Recall.Down: requires the same cursor bound as `Recall.Up`, for the same reason.
