# MIDI System Exclusive Tool — a Dafny model

The MIDI System Exclusive Tool is a single web page. It binds one MIDI input
and one MIDI output through the Web MIDI API. It reads hexadecimal byte
sequences typed at a shell-like prompt and transmits them. It prints each
incoming message as space-separated two-digit hex bytes, filtered by a
display mode. The page's script is in `js/app.js`. This project models the
core of that script:

- **`chooser`** (module `Chooser`): the port drop-down. `Selector.Update` is
  the updater closure. It runs the same loop over the options as the script.
  It relabels a known port and stays silent. It removes a port that lost its
  name. It appends an unknown named port. On every path but the relabel one,
  including an unknown id without a name, it passes the selector's current
  value to `choose`. The loop is proved equal to the pure
  `Reconciled`. Reconciliation keeps option ids unique, and applying it twice
  gives the same list as applying it once.
- **`midi`** (module `Midi`): the session. The binding callbacks keep
  `input`/`output` equal to the port map's entry for the chosen id. The
  input callback detaches and attaches the `midimessage` listener, with the
  set of ports carrying a listener tracked explicitly. Methods cover
  statechange routing by port type, the initial announcement of every port,
  and the sender closure.
- **`shell`** (module `Shell`): the prompt. It models the history, the edit
  buffer, the index and the input's value, together with the Enter, ArrowUp
  and ArrowDown branches of the keydown listener. Each branch is a class
  method proved equal to a pure state transition (`AfterEnter`, `AfterUp`,
  `AfterDown`). That transition keeps the buffer one longer than the history
  and keeps the index inside it.
- **`send`** (modules `Text`, `Command`, `App`): the command interpreter.
  JavaScript whitespace splitting and trimming live in `Text`.
  `Number("0x" + w)` is modelled as "a non-empty run of hex digits".
  `Command.Interpret` decides between clearing the screen, one of the error
  messages, transmitting, and doing nothing. `App.Send` carries that
  decision out on the console and the session.
- **`receive`** (modules `Display`, `App`): the display filter and the
  `reduce`/`toString(16)`/`padStart`/`slice(1)` formatter. The printed line
  splits back into exactly one two-digit token per byte. Typed back at the
  prompt, a received message re-sends the same bytes, unless it opens with
  f0 and does not end with f7, which is refused with the f7 error.

The status-byte test `bytes[0] & 0x80 == 0` parses in JavaScript as
`bytes[0] & (0x80 == 0)`. That is `bytes[0] & 0`, which is always 0, so
"Commands must start with a status byte" is never printed.
`Command.StatusTestAsWritten` models the test as written.
`Command.StatusByteNeverRequired` proves that the error message at
js/app.js:143 is unreachable.

In the updater, js/app.js:55 returns before `choose` when a port is
relabelled, while js/app.js:65 runs for an unknown id without a name,
although no option changed.
`Chooser.Broadcasts` says exactly when `choose` is called.

A note on the single listener: `Session.ChooseInput` keeps "at most one
listener, on the bound input" only conditionally. Suppose the id chosen
again is the one already bound, and the port map no longer has it. Then
the script neither removes the old listener nor attaches a new one, and it
forgets the old input. The ensures clauses of `ChooseInput`, `PickInput`,
`StateChange` and `Announce` each state a condition under which the property
survives; none claims the property fails when its condition does not hold.
For `ChooseInput`, `PickInput` and `StateChange` the condition excludes that
re-chosen-and-missing case. For `Announce` it requires the bound input to be
still in the port map. A bound input that disconnects always loses the
listener.

## Model

| member | source | states |
|---|---|---|
| Text.TrimEmptyIffBlank | js/app.js:99 | `line.trim()` is empty exactly when every character is JavaScript whitespace |
| Text.Words | js/app.js:132 | every word from `split(/\s+/).filter(Boolean)` is non-empty and free of whitespace |
| Text.WordsEmptyIffBlank | js/app.js:132 | the word list is empty exactly when the line is blank |
| Text.WordsOfJoin | js/app.js:132 | splitting words that were joined with single spaces returns the same words |
| Command.HexNumber | js/app.js:139 | `Number("0x" + w)` is a number exactly when `w` is a non-empty run of hex digits |
| Command.ParseBytes | js/app.js:139-141 | the byte list is refused exactly when some word is not a hex numeral of value at most 0xff; otherwise it has one byte per word, each byte being that word's hex value |
| Command.StatusTestAsWritten | js/app.js:142-143 | the status-byte test as written never rejects |
| Command.StatusByteNeverRequired | js/app.js:142-143 | no line ever yields "Commands must start with a status byte" |
| Command.Interpret | js/app.js:131-149 | the line is cleared exactly when its first word is `clear`; bytes are transmitted only when a sender exists, the list is non-empty, the bytes are the parsed words, and a message opening with f0 ends with f7 |
| Command.RejectsBadTokenIff | js/app.js:139-141 | a line that is not `clear` and contains a bad token yields "Invalid byte sequence: " followed by the trimmed line |
| Command.TransmitsIff | js/app.js:144-149 | a parsed, non-empty, properly framed line is transmitted |
| Command.UnterminatedSysexRejected | js/app.js:144-145 | a parsed message opening with f0 and not closing with f7 yields the f7 error, whether or not a sender exists |
| Command.InterpretParsed | js/app.js:142-149 | with a sender, a parsed non-empty line is transmitted when framed and refused with the f7 error otherwise |
| CommandExamples.RejectsNonHex | js/app.js:139-141 | `gg` is an invalid byte sequence |
| CommandExamples.RejectsOutOfRange | js/app.js:140-141 | `100` exceeds 0xff and is refused |
| CommandExamples.RejectsPrefixedToken | js/app.js:139-141 | `0x1f` is refused, since `Number("0x0x1f")` is NaN |
| CommandExamples.AcceptsLeadingZeros | js/app.js:139-149 | `00ff` sends the single byte ff |
| CommandExamples.AcceptsUpperCase | js/app.js:139-149 | `FF` sends the single byte ff |
| CommandExamples.RefusesUnterminatedSysex | js/app.js:144-145 | `f0 01` yields "System exclusive messages must end with f7" |
| CommandExamples.ClearsScrollback | js/app.js:133-136 | `clear` clears the screen, even with trailing words and no sender |
| CommandExamples.SendsIdentityRequest | js/app.js:131-149 | `f0 7e 00 06 01 f7` transmits those six bytes |
| Display.ShownByFilter | js/app.js:156-158 | "exclusive" shows only messages opening with f0; "common" shows those whose first byte is below f8; "realtime" shows everything; each mode shows a superset of the one before |
| Display.Hex2Digits | js/app.js:160 | `x.toString(16).padStart(2, "0")` is the high nibble's digit followed by the low nibble's digit |
| Display.Hex2RoundTrip | js/app.js:160 | a byte's two-digit text is a valid byte token whose hex value is the byte |
| Display.RenderIsJoin | js/app.js:159-161 | the `reduce` followed by `slice(1)` is the byte tokens joined with single spaces |
| Display.RenderLength | js/app.js:159-161 | a printed message has 3n−1 characters for n bytes, and none for no bytes |
| Display.RenderParsesBack | js/app.js:159-161 | splitting the printed line gives one token per byte, and parsing those tokens gives the bytes back |
| Display.RenderIsNotClear | js/app.js:133 | a printed non-empty message never reads as the `clear` command |
| Display.EchoRoundTrip | js/app.js:155-161 | a printed message, typed back, is transmitted unchanged unless it opens with f0 and does not end with f7, which yields the f7 error |
| Display.Received | js/app.js:155-161 | a line is printed exactly when the filter shows the message, and the line's words are the byte tokens |
| Chooser.RelabelBranch | js/app.js:50-55 | a named update to a listed id replaces only that option's text, keeps the ids, and does not call `choose` |
| Chooser.RemoveBranch | js/app.js:50-58 | an unnamed update to a listed id removes exactly that option and calls `choose` |
| Chooser.UnknownIdBranch | js/app.js:59-65 | an update to an unlisted id appends it when named, changes nothing otherwise, and calls `choose` either way |
| Chooser.ReconciledIds | js/app.js:49-66 | option ids stay unique; after the update, the id is listed exactly when it was given a name, and no other id is added or removed |
| Chooser.ReconciledIdempotent | js/app.js:49-66 | repeating the same update changes nothing further |
| Chooser.Selector.constructor | js/app.js:45-47 | the selector starts with no options and no value |
| Chooser.Selector.Pick | js/app.js:48 | picking a listed option makes it the value and passes it to `choose` |
| Chooser.Selector.Update | js/app.js:49-66 | the option loop produces exactly `Reconciled`; `choose` receives the new value on every path except the relabel one (removal, append, and the no-op for an unknown id without a name); a relabel keeps the selection; a selection that survives is kept; the page is written to only when the options change |
| Midi.Get | js/app.js:22 | `access.inputs.get(id)` returns a port exactly when the id is present, and that port has the id |
| Midi.EventName | js/app.js:32-33 | the event carries a name exactly when the port is connected, and the name is the port's |
| Midi.AnnouncedFromEmpty | js/app.js:40-41 | announcing distinct, named ports to an empty drop-down lists exactly those ports, in map order |
| Midi.AnyBroadcastFromEmpty | js/app.js:59-65 | announcing at least one port to an empty drop-down calls `choose` at least once |
| Midi.AnnouncedIds | js/app.js:40-41 | announcing keeps ids unique and lists only ids the drop-down had or the port map holds |
| Midi.AnnouncedOmitsUnnamed | js/app.js:40-41 | announcing keeps ids unique, and a port announced only with an empty name never appears |
| Midi.Session.constructor | js/app.js:10-11 | no port is bound, no listener is attached, and both drop-downs are empty |
| Midi.Session.ChooseInput | js/app.js:19-25 | the input is the map's entry for the id; the listener moves from the old input to the new one exactly as the guards allow, as `Relistened` states; the single-listener property survives whenever the re-chosen-and-missing case does not arise |
| Midi.Session.ChooseOutput | js/app.js:27-29 | the output is the map's entry for the id |
| Midi.Session.PickInput | js/app.js:48 | choosing a listed input from its drop-down selects it and binds it, and moves the listener as `ChooseInput` does; the single listener survives whenever the picked port is not the bound input after it has left the map |
| Midi.Session.PickOutput | js/app.js:48 | choosing a listed output from its drop-down selects it and binds it |
| Midi.Session.StateChange | js/app.js:31-38 | an input event updates only the input drop-down, and an output event only the output drop-down, with the event's name when connected and none otherwise; the other side's options, selection, writes, binding and (for output events) the listener are unchanged; when the drop-down calls `choose`, the binding and the listener follow its value; a disconnected port leaves its list and its binding, and a bound input that disconnects loses the listener; the single listener survives whenever the bound input is not chosen again after leaving the map |
| Midi.Session.Announce | js/app.js:40-41 | each drop-down becomes the announcement of its port map, in map order, written once per call that changes it; each side is bound to its drop-down's value when some call announced it and keeps its binding, selection and listener otherwise; announcing to an empty drop-down binds its value; the single listener survives when the bound input is still in the map |
| Midi.Session.AnnounceInputs | js/app.js:40 | the input drop-down becomes the announcement of every input, with the binding, selection, listener and write count as `Announce` states them |
| Midi.Session.AnnounceOutputs | js/app.js:41 | the output drop-down becomes the announcement of every output, with the binding, selection and write count as `Announce` states them |
| Midi.Session.OfferInput | js/app.js:40 | one updater call of the input announcement: the list is reconciled, the input is rebound to the drop-down's value when `choose` is called and left alone otherwise, and a single listener on an input in the map stays so |
| Midi.Session.OfferOutput | js/app.js:41 | one updater call of the output announcement: the list is reconciled, and the output is rebound to the drop-down's value when `choose` is called and left alone otherwise |
| Midi.Session.Send | js/app.js:42 | the sender reaches the bound output exactly when there is one, and throws exactly when that port refuses the data |
| Midi.Session.Deliver | js/app.js:21-24 | a message is handed to `receive` only while listening; with a single listener, that happens exactly for the bound input |
| Shell.AfterEnter | js/app.js:97-106 | Enter clears the input, resets the buffer to the history plus an empty line with the index on that line, and adds the line to the history exactly when it is not blank |
| Shell.AfterUp | js/app.js:107-111 | ArrowUp stores the input in the current buffer slot, then steps back one entry unless already at the first |
| Shell.AfterDown | js/app.js:112-116 | ArrowDown stores the input in the current buffer slot, then steps forward one entry unless already at the last |
| Shell.UpThenDown | js/app.js:107-116 | ArrowUp followed by ArrowDown restores the input and the index, with only the current slot saved |
| Shell.UpsRecallHistory | js/app.js:105-110 | k presses of ArrowUp after Enter recall the k-th most recent history entry |
| Shell.Console.constructor | js/app.js:70-73 | the prompt starts with an empty history, a buffer of one empty line, and index 0 |
| Shell.Console.Type | js/app.js:71 | typing replaces the input's value and leaves the history state intact |
| Shell.Console.Print | js/app.js:75-82 | `print` appends one line in the given colour |
| Shell.Console.Enter | js/app.js:97-106 | the line is echoed after "> ", the prompt state steps by `AfterEnter`, and the handler receives the line exactly when one exists and the line is not blank |
| Shell.Console.ArrowUp | js/app.js:107-111 | the prompt state steps by `AfterUp` |
| Shell.Console.ArrowDown | js/app.js:112-116 | the prompt state steps by `AfterDown` |
| App.Send | js/app.js:131-153 | the screen is cleared, an error is printed, or the interpreted bytes go to the sender exactly once, with "Invalid MIDI command: " when the port refuses them |
| App.Receive | js/app.js:155-162 | a message is appended in green as its rendered line exactly when the filter shows it |
| App.Submit | js/app.js:96-106 | Enter echoes the line and hands a non-blank line to `send`; bytes are passed to the sender exactly when there is a handler, the line is not blank and it interprets as a transmission; a blank line is only echoed and nothing is sent |
| App.Incoming | js/app.js:19-25 | with a single listener, only messages from the bound input reach the screen, each rendered and filtered as `receive` does |

## Left out

- The asynchronous `requestMIDIAccess` call (js/app.js:13-17) is not modelled. Only its outcome is: `App.Send` takes a session, or `null` when access was refused. While access is still pending (the `await` at js/app.js:129), `transmit` is not yet initialised: a well-formed line reaches the `try` at js/app.js:147-152, reading `transmit` throws, and "Invalid MIDI command: " plus the trimmed line is printed. The model has no such pending state.
- Real ports are out of scope. A port map is a parameter, the `midimessage` listener is the set `attached`, and a port refusing `send` is the boolean parameter `rejects`.
- Midi.Session.Send: the value `output.send` returns is not modelled, since `send` ignores it.
- Midi.Session.ChooseInput: the single-listener property is proved only in the conditional form described above, because the script does not keep it in the re-chosen-and-missing case.
- Chooser.Selector.Update: the relabel test compares the stored label with the name as is. The browser's `option.text` getter strips and collapses ASCII whitespace, so a name with leading, trailing or doubled spaces is rewritten on every relabel in the script, while the model (and its `writes` count) sees no change. Modelling the getter would make `Reconciled` depend on DOM text normalisation.
- Chooser.Selector.Update: what the browser selects after the selected option is removed is left open. Any listed option may be chosen, and none when the list is empty. A surviving selection is kept.
- Statechange events for ports that are neither input nor output (the fall-through of js/app.js:34-37) are not modelled, because Web MIDI has only these two port types.
- DOM layout is not modelled: element creation, styles, `scrollIntoView`, the focus redirection (js/app.js:84-94, 120-121) and `preventDefault` on the arrow keys.
- The prompt's startup messages (js/app.js:164-169) are not modelled. They are plain calls to `print` in red, already covered by `Shell.Console.Print`.
- The HTML markup and style sheet (js/app.js:173-231) are not modelled.
- Command.HexNumber: only the grammar of `Number("0x" + w)` is modelled. A very long token's exact value is used instead of its floating-point approximation, which does not change the comparison with 0xff.
- Strings are sequences of Unicode characters, not UTF-16 code units. The whitespace class is ECMAScript's WhiteSpace and LineTerminator set.
- App.Submit runs `send` after Enter resets the prompt, whereas the script calls it before the reset. Neither step reads the other's state, so the result is the same.
- The display filter is a parameter of `App.Receive`, not a read of the page's `<select>`.
